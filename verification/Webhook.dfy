/** The BetaGrid webhook: parsing, the ordered gates in front of processing, and what
    redelivery can and cannot achieve. */
module Webhook {
  import opened Wrappers
  import opened Domain
  import opened Events

  // ---- Parsing ---------------------------------------------------------------------------

  /** Decoded wire records; times are seconds since 1970. The data is decoded as one or
      the other kind, and may fail to be either. */
  datatype WireHazard = WireHazard(device: string, hazard: string, certainty: string, started: int, verified: int)
  datatype WireHeartbeat = WireHeartbeat(device: string, state: string)
  datatype WireDelivery = WireDelivery(
    msgId: string, sentAt: int, kind: string, asHazard: Option<WireHazard>, asHeartbeat: Option<WireHeartbeat>)

  datatype Payload = Hazard(event: NormalizedEvent) | Heartbeat(externalDeviceId: string, status: DeviceStatus)
  datatype Delivery = Delivery(msgId: string, sentAt: int, payload: Payload)

  datatype Malformed =
    | MalformedJson | MissingMsgId | MissingSentAt | MalformedData | MissingDevice
    | UnknownHazard | UnknownCertainty | MissingVerified | UnknownKind

  function UnixTime(seconds: int): int {
    UNIX_EPOCH + seconds * SECOND
  }

  function CertaintyToConfidence(c: string): Option<real> {
    if c == "low" then Some(0.25)
    else if c == "medium" then Some(0.50)
    else if c == "high" then Some(0.90)
    else None
  }

  function ParseHazard(msgId: string, h: WireHazard, now: int): Result<NormalizedEvent, Malformed> {
    var confidence := CertaintyToConfidence(h.certainty);
    if h.device == "" then Err(MissingDevice)
    else if h.hazard != "FLAME" && h.hazard != "SMOKE_DETECTED" then Err(UnknownHazard)
    else if confidence.None? then Err(UnknownCertainty)
    else if h.verified <= 0 then Err(MissingVerified)
    else
      var started := if h.started <= 0 then h.verified else h.started;
      Ok(NormalizedEvent(h.device, HazardEvent(
           msgId, "", BetaGrid, if h.hazard == "FLAME" then Fire else Smoke, confidence.value,
           UnixTime(started), UnixTime(h.verified), now)))
  }

  function Parse(wire: Option<WireDelivery>, now: int): Result<Delivery, Malformed> {
    if wire.None? then Err(MalformedJson)
    else
      var w := wire.value;
      if w.msgId == "" then Err(MissingMsgId)
      else if w.sentAt <= 0 then Err(MissingSentAt)
      else if w.kind == "hazard" then
        if w.asHazard.None? then Err(MalformedData)
        else
          match ParseHazard(w.msgId, w.asHazard.value, now)
          case Err(m) => Err(m)
          case Ok(ne) => Ok(Delivery(w.msgId, UnixTime(w.sentAt), Hazard(ne)))
      else if w.kind == "heartbeat" then
        if w.asHeartbeat.None? then Err(MalformedData)
        else if w.asHeartbeat.value.device == "" then Err(MissingDevice)
        else
          var state := w.asHeartbeat.value.state;
          var status := if state == "up" then Online else if state == "down" then Offline else StatusUnknown;
          Ok(Delivery(w.msgId, UnixTime(w.sentAt), Heartbeat(w.asHeartbeat.value.device, status)))
      else Err(UnknownKind)
  }

  // ---- One delivery ------------------------------------------------------------------------

  datatype Config = Config(secret: string, maxSkew: int, maxBytes: int)

  /** One HTTP request, and how the database behaves towards it. */
  datatype Request = Request(
    readable: bool,
    size: int,
    authentic: bool,
    wire: Option<WireDelivery>,
    parsedAt: int,
    now: int,
    deadLetter: Fault,
    gate: Fault,
    weather: Weather,
    touch: Fault)

  datatype Answer =
    | NotConfigured | Unreadable | TooLarge | BadSignature | MalformedPayload | OutsideWindow
    | GateError | InvalidEvent | ProcessingError | HeartbeatError
    | Duplicate | Processed

  function StatusCode(a: Answer): int {
    match a
    case NotConfigured => 503
    case Unreadable => 400
    case TooLarge => 413
    case BadSignature => 401
    case MalformedPayload => 400
    case OutsideWindow => 400
    case GateError => 500
    case InvalidEvent => 400
    case ProcessingError => 500
    case HeartbeatError => 500
    case Duplicate => 200
    case Processed => 200
  }

  datatype State = State(db: Db, deliveries: set<string>, deadLetters: nat)

  function Abs(x: int): int { if x < 0 then -x else x }

  /** The first four gates: nothing is written unless all are passed, save a dead letter. */
  function Admit(cfg: Config, r: Request): Result<Delivery, Answer> {
    if cfg.secret == "" then Err(NotConfigured)
    else if !r.readable then Err(Unreadable)
    else if r.size > cfg.maxBytes then Err(TooLarge)
    else if !r.authentic then Err(BadSignature)
    else
      match Parse(r.wire, r.parsedAt)
      case Err(_) => Err(MalformedPayload)
      case Ok(d) => if Abs(r.now - d.sentAt) > cfg.maxSkew then Err(OutsideWindow) else Ok(d)
  }

  function Bury(st: State, fault: Fault): State {
    if fault == FailsBefore then st else st.(deadLetters := st.deadLetters + 1)
  }

  function Pulse(p: Payload, sentAt: int): Sighting
    requires p.Heartbeat?
  {
    Sighting(p.externalDeviceId, "", p.status, "", sentAt)
  }

  function Process(st: State, r: Request, d: Delivery): (Answer, State) {
    match d.payload
    case Hazard(ne) =>
      var (a, db) := AcceptFromProvider(st.db, ne, r.weather);
      var st' := st.(db := db);
      if a == RejectedEvent then (InvalidEvent, Bury(st', r.deadLetter))
      else if a == StorageError then (ProcessingError, st')
      else (Processed, st')
    case Heartbeat(externalId, status) =>
      if r.weather.device == FailsBefore then (HeartbeatError, st)
      else
        var (id, db) := UpsertDevice(st.db, BetaGrid, Pulse(d.payload, d.sentAt), r.weather.freshId);
        if r.weather.device == CommitsThenFails then (HeartbeatError, st.(db := db))
        else
          (if r.touch == NoFault then Processed else HeartbeatError,
           st.(db := if r.touch == FailsBefore then db else TouchDevice(db, id, status, d.sentAt)))
  }

  function Handle(cfg: Config, st: State, r: Request): (Answer, State) {
    match Admit(cfg, r)
    case Err(a) => (a, if a == MalformedPayload then Bury(st, r.deadLetter) else st)
    case Ok(d) =>
      if r.gate == FailsBefore then (GateError, st)
      else
        var st' := st.(deliveries := st.deliveries + {d.msgId});
        if r.gate == CommitsThenFails then (GateError, st')
        else if d.msgId in st.deliveries then (Duplicate, st)
        else Process(st', r, d)
  }

  class Handler {
    const cfg: Config
    const events: Service
    var deliveries: set<string>
    var deadLetters: nat

    ghost function Snapshot(): State
      reads this, events
    {
      State(events.Contents(), deliveries, deadLetters)
    }

    constructor (cfg: Config, events: Service)
      ensures this.cfg == cfg && this.events == events && Snapshot() == State(events.Contents(), {}, 0)
    {
      this.cfg, this.events, deliveries, deadLetters := cfg, events, {}, 0;
    }

    method DeadLetter(fault: Fault)
      modifies this
      ensures Snapshot() == Bury(old(Snapshot()), fault)
    {
      if fault != FailsBefore {
        deadLetters := deadLetters + 1;
      }
    }

    /** `INSERT ... ON CONFLICT DO NOTHING` on the deliveries table. */
    method RecordDelivery(msgId: string, fault: Fault) returns (r: InsertResult)
      modifies this
      ensures deadLetters == old(deadLetters)
      ensures fault == FailsBefore ==> r == InsertFailed && deliveries == old(deliveries)
      ensures fault != FailsBefore ==>
                && deliveries == old(deliveries) + {msgId}
                && r == if fault == CommitsThenFails then InsertFailed
                        else if msgId in old(deliveries) then DuplicateRow else Inserted
    {
      if fault == FailsBefore {
        return InsertFailed;
      }
      var duplicate := msgId in deliveries;
      deliveries := deliveries + {msgId};
      r := if fault == CommitsThenFails then InsertFailed else if duplicate then DuplicateRow else Inserted;
    }

    method ProcessDelivery(r: Request, d: Delivery) returns (a: Answer)
      modifies this, events
      ensures (a, Snapshot()) == Process(old(Snapshot()), r, d)
    {
      match d.payload
      case Hazard(ne) =>
        var result := events.AcceptProviderEvent(ne, r.weather);
        if result == RejectedEvent {
          DeadLetter(r.deadLetter);
          return InvalidEvent;
        }
        if result == StorageError {
          return ProcessingError;
        }
        return Processed;
      case Heartbeat(externalId, status) =>
        var id := events.Upsert(BetaGrid, Pulse(d.payload, d.sentAt), r.weather.freshId, r.weather.device);
        if id.None? {
          return HeartbeatError;
        }
        events.Touch(id.value, status, d.sentAt, r.touch);
        return if r.touch == NoFault then Processed else HeartbeatError;
    }

    method BetaGridDelivery(r: Request) returns (a: Answer)
      modifies this, events
      ensures (a, Snapshot()) == Handle(cfg, old(Snapshot()), r)
    {
      if cfg.secret == "" {
        return NotConfigured;
      }
      if !r.readable {
        return Unreadable;
      }
      if r.size > cfg.maxBytes {
        return TooLarge;
      }
      if !r.authentic {
        return BadSignature;
      }
      var parsed := Parse(r.wire, r.parsedAt);
      if parsed.Err? {
        DeadLetter(r.deadLetter);
        return MalformedPayload;
      }
      var d := parsed.value;
      if Abs(r.now - d.sentAt) > cfg.maxSkew {
        return OutsideWindow;
      }
      var gate := RecordDelivery(d.msgId, r.gate);
      match gate
      case DuplicateRow =>
        assert deliveries == old(deliveries);
        return Duplicate;
      case InsertFailed =>
        return GateError;
      case Inserted =>
        a := ProcessDelivery(r, d);
    }
  }

  // ---- Valid by construction ---------------------------------------------------------------

  /** Whatever `Parse` accepts is a valid event once its device has an id, keyed by the
      delivery's own id. */
  lemma ParsedIsValid(wire: Option<WireDelivery>, now: int, deviceId: string)
    requires Parse(wire, now).Ok? && Parse(wire, now).value.payload.Hazard? && deviceId != ""
    ensures var d := Parse(wire, now).value;
            d.payload.event.event.(deviceId := deviceId).Valid() && d.payload.event.event.Key() == (BetaGrid, d.msgId)
  {
  }

  /** The handler's rejected-event branch cannot be reached. */
  lemma InvalidEventIsUnreachable(cfg: Config, st: State, r: Request)
    requires Sound(st.db) && r.weather.freshId != ""
    ensures Handle(cfg, st, r).0 != InvalidEvent
  {
    if Admit(cfg, r).Ok? && Admit(cfg, r).value.payload.Hazard? {
      ParsedIsValid(r.wire, r.parsedAt, "known");
      AcceptFromProviderIsSound(st.db, Admit(cfg, r).value.payload.event, r.weather);
    }
  }

  /** A request touches the events or the deliveries only if the secret is configured, the
      body readable, small enough, authentic and well formed, and its time in the window;
      a dead letter is written only for an authentic body. */
  lemma GatesProtectState(cfg: Config, st: State, r: Request)
    ensures var (a, st') := Handle(cfg, st, r);
            && (st'.db != st.db || st'.deliveries != st.deliveries || StatusCode(a) == 200 ==>
                  && cfg.secret != "" && r.readable && r.size <= cfg.maxBytes && r.authentic
                  && r.wire.Some? && r.wire.value.msgId != ""
                  && -cfg.maxSkew <= r.now - UnixTime(r.wire.value.sentAt) <= cfg.maxSkew)
            && (st'.deadLetters != st.deadLetters ==> cfg.secret != "" && r.authentic && StatusCode(a) == 400)
            && (cfg.secret != "" && r.readable && r.size <= cfg.maxBytes && !r.authentic ==> StatusCode(a) == 401)
  {
  }

  // ---- Redelivery --------------------------------------------------------------------------

  /** Does this request pass the gates in front of the deliveries table with that id? */
  predicate Reaches(cfg: Config, r: Request, id: string) {
    Admit(cfg, r).Ok? && Admit(cfg, r).value.msgId == id
  }

  /** Would it store its event if it were the first of its id? */
  predicate Stores(cfg: Config, r: Request) {
    && Admit(cfg, r).Ok? && Admit(cfg, r).value.payload.Hazard?
    && r.gate == NoFault && r.weather.device == NoFault && r.weather.insert != FailsBefore
  }

  function Row(id: string): (ProviderName, string) {
    (BetaGrid, id)
  }

  lemma AcceptStoresIff(db: Db, ne: NormalizedEvent, w: Weather, key: (ProviderName, string))
    requires Sound(db) && w.freshId != "" && ne.event.(deviceId := "known").Valid()
    ensures var db' := AcceptFromProvider(db, ne, w).1;
            HasKey(db'.rows, key) <==>
              HasKey(db.rows, key) || (ne.event.Key() == key && w.device == NoFault && w.insert != FailsBefore)
  {
    var db' := AcceptFromProvider(db, ne, w).1;
    AcceptFromProviderIsSound(db, ne, w);
    if HasKey(db.rows, key) {
      KeysStay(db.rows, db'.rows, key);
    }
    if w.device == NoFault {
      var (id, db1) := UpsertDevice(db, ne.event.source, SignOfLife(ne), w.freshId);
      var e := ne.event.(deviceId := id);
      assert db'.rows == db.rows || db'.rows == db.rows + [e];
      assert e in db.rows + [e];
    }
  }

  /** One request keeps the database sound and adds its id to the deliveries iff it got
      that far; an id's event becomes stored iff this was the first request of that id to
      get that far and nothing failed on its way. */
  lemma HandleStoresIff(cfg: Config, st: State, r: Request, id: string)
    requires Sound(st.db) && r.weather.freshId != ""
    ensures var st' := Handle(cfg, st, r).1;
            && Sound(st'.db)
            && (id in st'.deliveries <==> id in st.deliveries || (Reaches(cfg, r, id) && r.gate != FailsBefore))
            && (HasKey(st'.db.rows, Row(id)) <==>
                  HasKey(st.db.rows, Row(id)) || (id !in st.deliveries && Reaches(cfg, r, id) && Stores(cfg, r)))
  {
    if Admit(cfg, r).Ok? {
      ProcessStoresIff(st, r, Admit(cfg, r).value, id);
    }
  }

  lemma ProcessStoresIff(st: State, r: Request, d: Delivery, id: string)
    requires Sound(st.db) && r.weather.freshId != "" && Parse(r.wire, r.parsedAt) == Ok(d)
    ensures forall ids :: Process(st.(deliveries := ids), r, d).1.db == Process(st, r, d).1.db
    ensures forall ids :: Process(st.(deliveries := ids), r, d).1.deliveries == ids
    ensures var st' := Process(st, r, d).1;
            && Sound(st'.db)
            && (HasKey(st'.db.rows, Row(id)) <==>
                  || HasKey(st.db.rows, Row(id))
                  || (d.msgId == id && d.payload.Hazard? && r.weather.device == NoFault
                      && r.weather.insert != FailsBefore))
  {
    if d.payload.Hazard? {
      ParsedIsValid(r.wire, r.parsedAt, "known");
      AcceptFromProviderIsSound(st.db, d.payload.event, r.weather);
      AcceptStoresIff(st.db, d.payload.event, r.weather, Row(id));
    }
  }

  function HandleAll(cfg: Config, st: State, reqs: seq<Request>): (seq<Answer>, State)
    decreases |reqs|
  {
    if reqs == [] then ([], st)
    else
      var (a, st') := Handle(cfg, st, reqs[0]);
      var (rest, last) := HandleAll(cfg, st', reqs[1..]);
      ([a] + rest, last)
  }

  /** The first request of an id that makes the gate commit decides the id's fate. */
  predicate Survives(cfg: Config, reqs: seq<Request>, id: string)
    decreases |reqs|
  {
    reqs != [] &&
    if Reaches(cfg, reqs[0], id) && reqs[0].gate != FailsBefore then Stores(cfg, reqs[0])
    else Survives(cfg, reqs[1..], id)
  }

  /** Over any sequence of requests, other deliveries and forgeries mixed in, an id's
      event ends up stored iff it was already, or the first request of that id for which
      the gate committed got as far as an insert that committed, answer lost or not. */
  lemma {:induction false} RedeliveryStoresIff(cfg: Config, st: State, reqs: seq<Request>, id: string)
    requires Sound(st.db) && forall r :: r in reqs ==> r.weather.freshId != ""
    ensures var st' := HandleAll(cfg, st, reqs).1;
            && Sound(st'.db)
            && (HasKey(st'.db.rows, Row(id)) <==>
                  HasKey(st.db.rows, Row(id)) || (id !in st.deliveries && Survives(cfg, reqs, id)))
            && (HasKey(st'.db.rows, Row(id)) ==> StoredOnce(st'.db.rows, Row(id)))
    decreases |reqs|
  {
    if reqs == [] {
      if HasKey(st.db.rows, Row(id)) {
        UniqueMeansOnce(st.db.rows, Row(id));
      }
    } else {
      HandleStoresIff(cfg, st, reqs[0], id);
      RedeliveryStoresIff(cfg, Handle(cfg, st, reqs[0]).1, reqs[1..], id);
    }
  }

  /** A request of the hazard that meets no failure at all. */
  predicate Clean(cfg: Config, r: Request, id: string) {
    && Reaches(cfg, r, id) && Admit(cfg, r).value.payload.Hazard?
    && r.gate == NoFault == r.weather.device && r.weather.insert == NoFault && r.weather.freshId != ""
  }

  function Duplicates(n: nat): (r: seq<Answer>)
    ensures forall a :: a in r ==> a == Duplicate
  {
    if n == 0 then [] else [Duplicate] + Duplicates(n - 1)
  }

  /** When storage never fails, delivering an authentic hazard any number of times inside
      the window stores it exactly once and answers 200 every time. */
  lemma {:induction false} CleanRedelivery(cfg: Config, st: State, reqs: seq<Request>, id: string)
    requires Sound(st.db) && id !in st.deliveries && reqs != []
    requires forall r :: r in reqs ==> Clean(cfg, r, id)
    ensures var (answers, st') := HandleAll(cfg, st, reqs);
            && StoredOnce(st'.db.rows, Row(id))
            && answers == [Processed] + Duplicates(|reqs| - 1)
            && forall a :: a in answers ==> StatusCode(a) == 200
  {
    assert reqs[0] in reqs;
    CleanIsProcessed(cfg, st, reqs[0], id);
    FirstThenDuplicates(cfg, st, reqs, id);
    AllAnswered(Handle(cfg, st, reqs[0]), HandleAll(cfg, st, reqs), |reqs| - 1, id);
  }

  lemma AllAnswered(first: (Answer, State), all: (seq<Answer>, State), repeats: nat, id: string)
    requires first.0 == Processed && StoredOnce(first.1.db.rows, Row(id))
    requires all == ([first.0] + Duplicates(repeats), first.1)
    ensures StoredOnce(all.1.db.rows, Row(id)) && all.0 == [Processed] + Duplicates(repeats)
    ensures forall a :: a in all.0 ==> StatusCode(a) == 200
  {
  }

  lemma CleanIsProcessed(cfg: Config, st: State, r: Request, id: string)
    requires Sound(st.db) && Clean(cfg, r, id) && id !in st.deliveries
    ensures var (a, st') := Handle(cfg, st, r);
            a == Processed && id in st'.deliveries && StoredOnce(st'.db.rows, Row(id))
  {
    HandleStoresIff(cfg, st, r, id);
    UniqueMeansOnce(Handle(cfg, st, r).1.db.rows, Row(id));
    ParsedIsValid(r.wire, r.parsedAt, "known");
    AcceptFromProviderIsSound(st.db, Admit(cfg, r).value.payload.event, r.weather);
  }

  lemma FirstThenDuplicates(cfg: Config, st: State, reqs: seq<Request>, id: string)
    requires reqs != [] && id in Handle(cfg, st, reqs[0]).1.deliveries
    requires forall q :: q in reqs[1..] ==> Clean(cfg, q, id)
    ensures HandleAll(cfg, st, reqs) ==
            var (a, st') := Handle(cfg, st, reqs[0]);
            ([a] + Duplicates(|reqs| - 1), st')
  {
    RepeatsAreDuplicates(cfg, Handle(cfg, st, reqs[0]).1, reqs[1..], id);
  }

  lemma {:induction false} RepeatsAreDuplicates(cfg: Config, st: State, reqs: seq<Request>, id: string)
    requires id in st.deliveries && forall r :: r in reqs ==> Clean(cfg, r, id)
    ensures HandleAll(cfg, st, reqs) == (Duplicates(|reqs|), st)
    decreases |reqs|
  {
    if reqs != [] {
      assert reqs[0] in reqs;
      RepeatsAreDuplicates(cfg, st, reqs[1..], id);
    }
  }

  /** The gate commits before the event is stored, so a storage failure in between loses
      the event: the provider is told 500, its redeliveries are told 200, and the event
      is never stored. */
  lemma StorageFailureLosesEvent(cfg: Config, st: State, r: Request, later: seq<Request>, id: string)
    requires Sound(st.db) && r.weather.freshId != "" && forall q :: q in later ==> Clean(cfg, q, id)
    requires id !in st.deliveries && !HasKey(st.db.rows, Row(id))
    requires Reaches(cfg, r, id) && Admit(cfg, r).value.payload.Hazard? && r.gate == NoFault
    requires r.weather.device != NoFault || r.weather.insert == FailsBefore
    ensures var (answers, st') := HandleAll(cfg, st, [r] + later);
            && !HasKey(st'.db.rows, Row(id))
            && answers == [ProcessingError] + Duplicates(|later|)
  {
    HandleStoresIff(cfg, st, r, id);
    FailureIsReported(cfg, st, r);
    assert ([r] + later)[1..] == later;
    FirstThenDuplicates(cfg, st, [r] + later, id);
  }

  lemma FailureIsReported(cfg: Config, st: State, r: Request)
    requires Sound(st.db) && r.weather.freshId != ""
    requires Admit(cfg, r).Ok? && Admit(cfg, r).value.payload.Hazard?
    requires r.gate == NoFault && Admit(cfg, r).value.msgId !in st.deliveries
    requires r.weather.device != NoFault || r.weather.insert == FailsBefore
    ensures Handle(cfg, st, r).0 == ProcessingError
  {
    ParsedIsValid(r.wire, r.parsedAt, "known");
    AcceptFromProviderIsSound(st.db, Admit(cfg, r).value.payload.event, r.weather);
  }

  // ---- Heartbeats ----------------------------------------------------------------------------

  /** The status a heartbeat's upsert leaves: an unknown one does not replace another. */
  function UpsertedStatus(db: Db, externalId: string, status: DeviceStatus): DeviceStatus {
    var key := (BetaGrid, externalId);
    if key in db.devices && status == StatusUnknown then db.devices[key].status else status
  }

  /** What a heartbeat that passes the gate leaves of its device's status, and when it is
      answered 200. The touch after the upsert sets the reported status whatever it is, so
      a state outside the vocabulary erases what was known, unless the touch did not happen. */
  lemma HeartbeatSetsStatus(cfg: Config, st: State, r: Request)
    requires Admit(cfg, r).Ok? && Admit(cfg, r).value.payload.Heartbeat?
    requires Admit(cfg, r).value.msgId !in st.deliveries && r.gate == NoFault
    ensures var p := Admit(cfg, r).value.payload;
            var key := (BetaGrid, p.externalDeviceId);
            var (a, st') := Handle(cfg, st, r);
            && (r.weather.device == FailsBefore ==> st'.db == st.db)
            && (r.weather.device != FailsBefore ==>
                  && key in st'.db.devices
                  && st'.db.devices[key].status ==
                     if r.weather.device == NoFault && r.touch != FailsBefore then p.status
                     else UpsertedStatus(st.db, p.externalDeviceId, p.status))
            && (StatusCode(a) == 200 <==> r.weather.device == NoFault == r.touch)
            && (p.status == StatusUnknown <==>
                  r.wire.value.asHeartbeat.value.state != "up" && r.wire.value.asHeartbeat.value.state != "down")
  {
  }
}

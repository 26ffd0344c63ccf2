/** What one webhook request comes to, told by the fields of its body. */
module WebhookOutcomes {
  import opened Wrappers
  import opened Domain
  import opened Events
  import opened Webhook
  import E = EventOutcomes

  /** A complete delivery of either kind. */
  predicate Complete(w: WireDelivery) {
    w.msgId != "" && w.sentAt > 0 && (CompleteHazard(w) || CompleteHeartbeat(w))
  }

  predicate CompleteHazard(w: WireDelivery) {
    && w.kind == "hazard" && w.asHazard.Some?
    && var h := w.asHazard.value;
       && h.device != "" && h.hazard in {"FLAME", "SMOKE_DETECTED"} && h.certainty in {"low", "medium", "high"}
       && h.verified > 0
  }

  predicate CompleteHeartbeat(w: WireDelivery) {
    w.kind == "heartbeat" && w.asHeartbeat.Some? && w.asHeartbeat.value.device != ""
  }

  /** Seconds since 1970 as nanoseconds since year 1. */
  function Instant(seconds: int): int {
    (62_135_596_800 + seconds) * 1_000_000_000
  }

  /** The event a hazard delivery stands for. */
  function Described(w: WireDelivery, parsedAt: int): NormalizedEvent
    requires CompleteHazard(w)
  {
    var h := w.asHazard.value;
    NormalizedEvent(h.device, HazardEvent(
      w.msgId, "", BetaGrid, if h.hazard == "FLAME" then Fire else Smoke,
      if h.certainty == "low" then 0.25 else if h.certainty == "medium" then 0.5 else 0.9,
      Instant(if h.started > 0 then h.started else h.verified), Instant(h.verified), parsedAt))
  }

  /** Parsing accepts exactly the complete deliveries, and gives what they say. */
  lemma ParseOutcome(wire: Option<WireDelivery>, parsedAt: int)
    ensures Parse(wire, parsedAt).Ok? <==> wire.Some? && Complete(wire.value)
    ensures wire.Some? && Complete(wire.value) ==>
              var w, d := wire.value, Parse(wire, parsedAt).value;
              && d.msgId == w.msgId && d.sentAt == Instant(w.sentAt)
              && (w.kind == "hazard" ==> d.payload == Hazard(Described(w, parsedAt)))
              && (w.kind == "heartbeat" ==>
                    var state := w.asHeartbeat.value.state;
                    d.payload == Heartbeat(w.asHeartbeat.value.device,
                                           if state == "up" then Online else if state == "down" then Offline
                                           else StatusUnknown))
  {
  }

  /** The gates in front of the deliveries table, in order, with their status codes; a dead
      letter is the only trace a refused request leaves. */
  lemma GatesOutcome(cfg: Config, st: State, r: Request)
    ensures var (a, st') := Handle(cfg, st, r);
            if cfg.secret == "" then StatusCode(a) == 503 && st' == st
            else if !r.readable then StatusCode(a) == 400 && st' == st
            else if r.size > cfg.maxBytes then StatusCode(a) == 413 && st' == st
            else if !r.authentic then StatusCode(a) == 401 && st' == st
            else if r.wire.None? || !Complete(r.wire.value) then
              && StatusCode(a) == 400 && st'.db == st.db && st'.deliveries == st.deliveries
              && st'.deadLetters == st.deadLetters + (if r.deadLetter == FailsBefore then 0 else 1)
            else if !(-cfg.maxSkew <= r.now - Instant(r.wire.value.sentAt) <= cfg.maxSkew) then
              StatusCode(a) == 400 && st' == st
            else if r.gate == FailsBefore then StatusCode(a) == 500 && st' == st
            else if r.gate == CommitsThenFails then
              StatusCode(a) == 500 && st' == st.(deliveries := st.deliveries + {r.wire.value.msgId})
            else if r.wire.value.msgId in st.deliveries then StatusCode(a) == 200 && st' == st
            else (a, st') == Process(st.(deliveries := st.deliveries + {r.wire.value.msgId}), r,
                                     Parse(r.wire, r.parsedAt).value)
  {
    ParseOutcome(r.wire, r.parsedAt);
  }

  /** Past every gate, and the first of its id to get there. */
  predicate Passes(cfg: Config, st: State, r: Request) {
    && cfg.secret != "" && r.readable && r.size <= cfg.maxBytes && r.authentic
    && r.wire.Some? && Complete(r.wire.value)
    && -cfg.maxSkew <= r.now - Instant(r.wire.value.sentAt) <= cfg.maxSkew
    && r.gate == NoFault && r.wire.value.msgId !in st.deliveries
  }

  /** The device as known, or as it would be registered. */
  function DeviceOf(db: Db, externalId: string, freshId: string): Device {
    if (BetaGrid, externalId) in db.devices then db.devices[(BetaGrid, externalId)]
    else Device(freshId, "", StatusUnknown, "", None)
  }

  /** A hazard that passes the gates is stored as it is described, under the id of its device,
      unless its id is known or a statement fails; it is answered 200 iff none fails. */
  lemma HazardOutcome(cfg: Config, st: State, r: Request)
    requires Passes(cfg, st, r) && CompleteHazard(r.wire.value)
    requires DeviceOf(st.db, r.wire.value.asHazard.value.device, r.weather.freshId).id != ""
    ensures var (a, st') := Handle(cfg, st, r);
            var ne := Described(r.wire.value, r.parsedAt);
            var d := DeviceOf(st.db, ne.externalDeviceId, r.weather.freshId);
            var e := ne.event.(deviceId := d.id);
            var seen := d.(lastSeen := E.LaterOf(d.lastSeen, e.confirmedAt));
            && StatusCode(a) == (if r.weather.device == NoFault == r.weather.insert then 200 else 500)
            && st'.deliveries == st.deliveries + {r.wire.value.msgId} && st'.deadLetters == st.deadLetters
            && st'.db.rows == (if r.weather.device == NoFault && r.weather.insert != FailsBefore
                                  && !E.Known(st.db.rows, e) then st.db.rows + [e] else st.db.rows)
            && st'.db.devices == (if r.weather.device == FailsBefore then st.db.devices
                                  else st.db.devices[(BetaGrid, ne.externalDeviceId) := seen])
  {
    var ne := Described(r.wire.value, r.parsedAt);
    var d := DeviceOf(st.db, ne.externalDeviceId, r.weather.freshId);
    GatesOutcome(cfg, st, r);
    ParseOutcome(r.wire, r.parsedAt);
    E.ProviderEventOutcome(st.db, ne, r.weather);
    var seen := d.(lastSeen := E.LaterOf(d.lastSeen, ne.event.confirmedAt));
    E.AcceptOutcome(st.db.(devices := st.db.devices[(BetaGrid, ne.externalDeviceId) := seen]),
                    ne.event.(deviceId := d.id), r.weather.insert);
  }

  /** A heartbeat that passes the gates leaves its device with the reported status and seen no
      earlier than it was sent; an unknown status replaces a known one only if the touch after
      the upsert commits. It is answered 200 iff both statements work. */
  lemma HeartbeatOutcome(cfg: Config, st: State, r: Request)
    requires Passes(cfg, st, r) && CompleteHeartbeat(r.wire.value)
    ensures var (a, st') := Handle(cfg, st, r);
            var beat := r.wire.value.asHeartbeat.value;
            var key := (BetaGrid, beat.device);
            var d := DeviceOf(st.db, beat.device, r.weather.freshId);
            var seen := E.LaterOf(d.lastSeen, Instant(r.wire.value.sentAt));
            var said := if beat.state == "up" then Online else if beat.state == "down" then Offline else StatusUnknown;
            && StatusCode(a) == (if r.weather.device == NoFault == r.touch then 200 else 500)
            && st'.deliveries == st.deliveries + {r.wire.value.msgId} && st'.deadLetters == st.deadLetters
            && st'.db.rows == st.db.rows && st'.db.published == st.db.published
            && (r.weather.device == FailsBefore ==> st'.db == st.db)
            && (r.weather.device != FailsBefore ==>
                  && key in st'.db.devices
                  && st'.db.devices[key] ==
                     d.(lastSeen := seen,
                        status := if r.weather.device == NoFault && r.touch != FailsBefore then said
                                  else if said == StatusUnknown then d.status else said))
  {
    var beat := r.wire.value.asHeartbeat.value;
    var said := if beat.state == "up" then Online else if beat.state == "down" then Offline else StatusUnknown;
    var sent := Instant(r.wire.value.sentAt);
    GatesOutcome(cfg, st, r);
    ParseOutcome(r.wire, r.parsedAt);
    var s := Sighting(beat.device, "", said, "", sent);
    E.UpsertOutcome(st.db, BetaGrid, s, r.weather.freshId);
    var (id, db) := UpsertDevice(st.db, BetaGrid, s, r.weather.freshId);
    E.TouchOutcome(db, id, said, sent, (BetaGrid, beat.device));
  }
}

/** What accepting an event, seeing a device, posting to the edge endpoint and polling a
    provider come to, told by the fields of events, devices and alerts alone. */
module EventOutcomes {
  import opened Wrappers
  import opened Domain
  import opened Events
  import opened Ingest
  import opened Alerts
  import P = Poller
  import Retry

  // ---- Devices -------------------------------------------------------------------------------

  function LaterOf(seen: Option<int>, at: int): Option<int> {
    if at == 0 || (seen.Some? && seen.value > at) then seen else Some(at)
  }

  /** A device after a sighting: what the sighting says replaces what was known. */
  function Updated(d: Device, s: Sighting): Device {
    Device(d.id,
           if s.name == "" then d.name else s.name,
           if s.status == StatusUnknown then d.status else s.status,
           if s.version == "" then d.version else s.version,
           LaterOf(d.lastSeen, s.lastSeenAt))
  }

  lemma UpsertOutcome(db: Db, provider: ProviderName, s: Sighting, freshId: string)
    ensures var (id, db') := UpsertDevice(db, provider, s, freshId);
            var key := (provider, s.externalId);
            var d := Updated(if key in db.devices then db.devices[key]
                             else Device(freshId, "", StatusUnknown, "", None), s);
            db' == db.(devices := db.devices[key := d]) && id == d.id
  {
  }

  /** A touch sets the status of the device with that id whatever it is, moves its time last
      seen forward only, and nothing else. */
  lemma TouchOutcome(db: Db, id: string, status: DeviceStatus, at: int, key: (ProviderName, string))
    requires key in db.devices
    ensures var db' := TouchDevice(db, id, status, at);
            var d := db.devices[key];
            && db'.rows == db.rows && db'.published == db.published && db'.devices.Keys == db.devices.Keys
            && db'.devices[key] ==
               (if d.id != id then d
                else d.(status := status,
                        lastSeen := if d.lastSeen.Some? && d.lastSeen.value > at then d.lastSeen else Some(at)))
  {
  }

  // ---- Events ----------------------------------------------------------------------------------

  /** Does some row have this event's source and key? */
  predicate Known(rows: seq<HazardEvent>, e: HazardEvent) {
    exists x :: x in rows && x.source == e.source && x.dedupKey == e.dedupKey
  }

  predicate WellFormed(e: HazardEvent) {
    && e.dedupKey != "" && e.deviceId != "" && e.confirmedAt != 0 && 0.0 <= e.confidence <= 1.0
    && e.source in {GuardianEdge, AlphaSense, BetaGrid}
    && e.kind in {Fire, Smoke, Fall, Intrusion, CameraTampering}
  }

  lemma AcceptOutcome(db: Db, e: HazardEvent, fault: Fault)
    ensures var (r, db') := Accept(db, e, fault);
            && r == (if !WellFormed(e) then RejectedEvent
                     else if fault != NoFault then StorageError
                     else Accepted(Known(db.rows, e)))
            && db'.rows == (if WellFormed(e) && fault != FailsBefore && !Known(db.rows, e) then db.rows + [e]
                            else db.rows)
            && db'.published == (if r == Accepted(false) then db.published + [e] else db.published)
            && db'.devices == db.devices
  {
    KnownIsKey(db.rows, e);
  }

  lemma KnownIsKey(rows: seq<HazardEvent>, e: HazardEvent)
    ensures Known(rows, e) <==> HasKey(rows, e.Key())
  {
    if Known(rows, e) {
      var x :| x in rows && x.source == e.source && x.dedupKey == e.dedupKey;
      assert x.Key() == e.Key();
    }
    if HasKey(rows, e.Key()) {
      var x :| x in rows && x.Key() == e.Key();
      assert x.source == e.source && x.dedupKey == e.dedupKey;
    }
  }

  /** A provider's event registers its device, or confirms that it was alive, and is accepted
      under the device's id. */
  lemma ProviderEventOutcome(db: Db, ne: NormalizedEvent, w: Weather)
    ensures var (r, db') := AcceptFromProvider(db, ne, w);
            var key := (ne.event.source, ne.externalDeviceId);
            var d := if key in db.devices then db.devices[key].(lastSeen := LaterOf(db.devices[key].lastSeen,
                                                                                    ne.event.confirmedAt))
                     else Device(w.freshId, "", StatusUnknown, "", LaterOf(None, ne.event.confirmedAt));
            var seen := db.(devices := db.devices[key := d]);
            && (w.device == FailsBefore ==> (r, db') == (StorageError, db))
            && (w.device == CommitsThenFails ==> (r, db') == (StorageError, seen))
            && (w.device == NoFault ==> (r, db') == Accept(seen, ne.event.(deviceId := d.id), w.insert))
  {
    UpsertOutcome(db, ne.event.source, SignOfLife(ne), w.freshId);
  }

  // ---- The edge endpoint -----------------------------------------------------------------------

  /** Milliseconds since 1970 as nanoseconds since year 1, a missing time as zero. */
  function Instant(ms: int): int {
    if ms <= 0 then 0 else 62_135_596_800_000_000_000 + ms * 1_000_000
  }

  /** A posted event is stored and published as it was sent, under the id of its device, which
      is now online with the version it reported; and the answer says what happened. */
  lemma PostOutcome(db: Db, body: Option<EdgeEvent>, now: int, w: Weather)
    ensures var (status, db') := PostEvent(db, body, now, w);
            if body.None? || body.value.deviceId == "" then status == 400 && db' == db
            else
              var b := body.value;
              var key := (GuardianEdge, b.deviceId);
              var known := if key in db.devices then db.devices[key]
                           else Device(w.freshId, "", StatusUnknown, "", None);
              var d := Device(known.id, known.name, Online, if b.appVersion == "" then known.version else b.appVersion,
                              LaterOf(known.lastSeen, now));
              var e := HazardEvent(b.eventId, d.id, GuardianEdge, b.kind, b.confidence,
                                   Instant(b.firstSeenMs), Instant(b.confirmedAtMs), now);
              var seen := db.(devices := db.devices[key := d]);
              var stores := w.device == NoFault && WellFormed(e) && !Known(db.rows, e);
              && status == (if w.device != NoFault then 500
                            else if !WellFormed(e) then 400
                            else if w.insert != NoFault then 500
                            else 202)
              && db'.devices == (if w.device == FailsBefore then db else seen).devices
              && db'.rows == (if stores && w.insert != FailsBefore then db.rows + [e] else db.rows)
              && db'.published == (if stores && w.insert == NoFault then db.published + [e] else db.published)
  {
    if body.Some? && body.value.deviceId != "" {
      UpsertOutcome(db, GuardianEdge, Presence(body.value, now), w.freshId);
      var (id, seen) := UpsertDevice(db, GuardianEdge, Presence(body.value, now), w.freshId);
      AcceptOutcome(seen, ToEvent(body.value, id, now), w.insert);
    }
  }

  // ---- A provider's alerts -----------------------------------------------------------------------

  /** Every field of a normalised alert, and which defect is reported of any other. */
  lemma NormalizeOutcome(a: WireAlert, received: int)
    ensures var r := Normalize(a, received);
            if a.category !in {"fire", "smoke"} then r == Err(UnknownCategory)
            else if a.alertId == "" || a.unitRef == "" then r == Err(MissingIdentifier)
            else if !(0.0 <= a.score <= 100.0) then r == Err(ScoreOutOfRange)
            else if a.confirmed.None? then r == Err(BadConfirmationTime)
            else
              && r.Ok? && r.value.externalDeviceId == a.unitRef
              && var e := r.value.event;
                 && e.dedupKey == a.alertId && e.deviceId == "" && e.source == AlphaSense && e.receivedAt == received
                 && (e.kind == Fire <==> a.category == "fire") && (e.kind == Smoke <==> a.category == "smoke")
                 && e.confidence * 100.0 == a.score && e.confirmedAt == a.confirmed.value
                 && e.firstSeenAt == if a.raised.Some? then a.raised.value else a.confirmed.value
  {
  }

  /** Normalising a list is normalising its alerts one after the other: what is good stays in
      order, and the first problem is the one reported. */
  lemma {:induction false} NormalizedAppends(x: seq<WireAlert>, y: seq<WireAlert>, received: int)
    ensures Normalized(x + y, received) == Normalized(x, received) + Normalized(y, received)
    ensures FirstProblem(x + y, received) ==
            if FirstProblem(x, received).Some? then FirstProblem(x, received) else FirstProblem(y, received)
    ensures |y| == 1 ==>
              match Normalize(y[0], received)
              case Ok(ne) => Normalized(y, received) == [ne] && FirstProblem(y, received) == None
              case Err(p) => Normalized(y, received) == [] && FirstProblem(y, received) == Some(p)
    decreases |y|
  {
    if |y| == 1 {
      NormalizedOne(y[0], received);
      assert y == [y[0]];
    }
    if y == [] {
      assert x + y == x;
    } else {
      var n := |y| - 1;
      assert (x + y)[..|x + y| - 1] == x + y[..n] && (x + y)[|x + y| - 1] == y[n];
      NormalizedAppends(x, y[..n], received);
    }
  }

  lemma NormalizedOne(a: WireAlert, received: int)
    ensures match Normalize(a, received)
            case Ok(ne) => Normalized([a], received) == [ne] && FirstProblem([a], received) == None
            case Err(p) => Normalized([a], received) == [] && FirstProblem([a], received) == Some(p)
  {
    assert [a][..0] == [];
  }

  /** A fetch gives nothing when its request failed, and otherwise the good alerts, with an
      error beside them iff some alert is not good. */
  lemma FetchOutcome(outcome: Retry.Outcome, alerts: seq<WireAlert>, received: int)
    ensures var (evs, err) := Fetched(outcome, alerts, received);
            && (outcome != Retry.Done ==> evs == [] && err == Some(RequestFailed(outcome)))
            && (outcome == Retry.Done ==>
                  && evs == Normalized(alerts, received)
                  && (err.None? <==> forall a :: a in alerts ==> Normalize(a, received).Ok?)
                  && (err.Some? ==> exists a :: a in alerts && Normalize(a, received) == Err(err.value.problem)))
  {
    if outcome == Retry.Done {
      ProblemIsSomeone(alerts, received);
      ProblemIffMalformed(alerts, received);
    }
  }

  lemma {:induction false} ProblemIsSomeone(alerts: seq<WireAlert>, received: int)
    ensures FirstProblem(alerts, received).Some? ==>
              exists a :: a in alerts && Normalize(a, received) == Err(FirstProblem(alerts, received).value)
  {
    if alerts != [] {
      ProblemIsSomeone(alerts[..|alerts| - 1], received);
    }
  }

  // ---- Polling -------------------------------------------------------------------------------------

  /** Did the listing's upsert of this device commit? */
  predicate Listed(devices: seq<P.Found>, key: (ProviderName, string)) {
    exists f :: f in devices && f.fault != FailsBefore && key == (AlphaSense, f.device.externalId)
  }

  lemma {:induction false} UpsertAllSteps(db: Db, x: seq<P.Found>, y: seq<P.Found>)
    ensures P.UpsertAll(db, x + y) == P.UpsertAll(P.UpsertAll(db, x), y)
    decreases |y|
  {
    if y == [] {
      assert x + y == x;
    } else {
      var n := |y| - 1;
      assert (x + y)[..|x + y| - 1] == x + y[..n] && (x + y)[|x + y| - 1] == y[n];
      UpsertAllSteps(db, x, y[..n]);
    }
  }

  /** After a listing the registered devices are those from before and those listed; devices
      not listed are as they were, and events are untouched. */
  lemma {:induction false} ListingOutcome(db: Db, devices: seq<P.Found>, key: (ProviderName, string))
    ensures var db' := P.UpsertAll(db, devices);
            && (key in db'.devices <==> key in db.devices || Listed(devices, key))
            && (key in db.devices && !Listed(devices, key) ==> db'.devices[key] == db.devices[key])
            && (key in db.devices ==> key in db'.devices && db'.devices[key].id == db.devices[key].id)
            && db'.rows == db.rows && db'.published == db.published
  {
    if devices != [] {
      var n := |devices| - 1;
      assert devices == devices[..n] + [devices[n]];
      ListingOutcome(db, devices[..n], key);
      UpsertOutcome(P.UpsertAll(db, devices[..n]), AlphaSense, devices[n].device, devices[n].freshId);
    }
  }

  /** What the last committed listing of a device says of it holds afterwards. */
  lemma LastListingShows(db: Db, devices: seq<P.Found>, i: nat)
    requires i < |devices| && devices[i].fault != FailsBefore
    requires forall j :: i < j < |devices| && devices[j].fault != FailsBefore ==>
               devices[j].device.externalId != devices[i].device.externalId
    ensures var db', s := P.UpsertAll(db, devices), devices[i].device;
            var key := (AlphaSense, s.externalId);
            && key in db'.devices
            && (s.name != "" ==> db'.devices[key].name == s.name)
            && (s.status != StatusUnknown ==> db'.devices[key].status == s.status)
            && (s.version != "" ==> db'.devices[key].version == s.version)
            && (s.lastSeenAt != 0 ==>
                  db'.devices[key].lastSeen.Some? && db'.devices[key].lastSeen.value >= s.lastSeenAt)
  {
    var before, later := devices[..i], devices[i + 1..];
    var key := (AlphaSense, devices[i].device.externalId);
    assert devices == devices[..i + 1] + later && devices[..i + 1][..i] == before;
    UpsertAllSteps(db, devices[..i + 1], later);
    UpsertOutcome(P.UpsertAll(db, before), AlphaSense, devices[i].device, devices[i].freshId);
    forall f | f in later && f.fault != FailsBefore ensures f.device.externalId != devices[i].device.externalId {
      var j :| 0 <= j < |later| && later[j] == f;
      assert devices[i + 1 + j] == f;
    }
    ListingOutcome(P.UpsertAll(db, devices[..i + 1]), later, key);
  }

  /** The question asked is the watermark less the overlap, cut to a whole second, and a
      missing overlap is a minute. */
  lemma QueryOutcome(since: int, overlap: int)
    ensures P.Query(since, overlap) <= since - overlap < P.Query(since, overlap) + 1_000_000_000
    ensures P.Query(since, overlap) % 1_000_000_000 == 0
    ensures P.EffectiveOverlap(overlap) == if overlap <= 0 then 60_000_000_000 else overlap
  {
  }

  /** What a list of events leaves behind: a new row is one of them, under some device's id. */
  lemma {:induction false} AcceptingInventsNothing(
      db: Db, evs: seq<NormalizedEvent>, weather: nat -> Weather, e: HazardEvent)
    requires e in P.AcceptAll(db, evs, weather).rows && e !in db.rows
    ensures exists i :: 0 <= i < |evs| && e == evs[i].event.(deviceId := e.deviceId)
  {
    var n := |evs| - 1;
    var earlier := P.AcceptAll(db, evs[..n], weather);
    if e in earlier.rows {
      AcceptingInventsNothing(db, evs[..n], weather, e);
      var i :| 0 <= i < n && e == evs[..n][i].event.(deviceId := e.deviceId);
      assert e == evs[i].event.(deviceId := e.deviceId);
    } else {
      ProviderEventOutcome(earlier, evs[n], weather(n));
      var ids := UpsertDevice(earlier, evs[n].event.source, SignOfLife(evs[n]), weather(n).freshId);
      AcceptOutcome(ids.1, evs[n].event.(deviceId := ids.0), weather(n).insert);
      assert e == evs[n].event.(deviceId := e.deviceId);
    }
  }
}

/** The connector's endpoint for edge events. */
module Ingest {
  import opened Wrappers
  import opened Domain
  import opened Events

  const MILLISECOND: int := 1_000_000

  /** The decoded body of one post. */
  datatype EdgeEvent = EdgeEvent(
    deviceId: string, eventId: string, kind: HazardType, confidence: real, firstSeenMs: int, confirmedAtMs: int,
    appVersion: string)

  /** A missing time must stay the zero time, so that validation catches it. */
  function MsToTime(ms: int): int {
    if ms <= 0 then 0 else UNIX_EPOCH + ms * MILLISECOND
  }

  function ToEvent(b: EdgeEvent, deviceId: string, now: int): HazardEvent {
    HazardEvent(b.eventId, deviceId, GuardianEdge, b.kind, b.confidence,
                MsToTime(b.firstSeenMs), MsToTime(b.confirmedAtMs), now)
  }

  /** Posting an event also shows the device online. */
  function Presence(b: EdgeEvent, now: int): Sighting {
    Sighting(b.deviceId, "", Online, b.appVersion, now)
  }

  /** The whole handler when nothing else runs beside it. */
  function PostEvent(db: Db, body: Option<EdgeEvent>, now: int, w: Weather): (int, Db) {
    if body.None? || body.value.deviceId == "" then (400, db)
    else if w.device == FailsBefore then (500, db)
    else
      var (id, db') := UpsertDevice(db, GuardianEdge, Presence(body.value, now), w.freshId);
      if w.device == CommitsThenFails then (500, db')
      else
        var (r, db'') := Accept(db', ToEvent(body.value, id, now), w.insert);
        (match r case Accepted(_) => 202 case RejectedEvent => 400 case StorageError => 500, db'')
  }

  class Api {
    const events: Service

    constructor (events: Service)
      ensures this.events == events
    {
      this.events := events;
    }

    method PostEdgeEvent(body: Option<EdgeEvent>, now: int, w: Weather) returns (status: int)
      modifies events
      ensures (status, events.Contents()) == PostEvent(old(events.Contents()), body, now, w)
    {
      if body.None? || body.value.deviceId == "" {
        return 400;
      }
      var id := events.Upsert(GuardianEdge, Presence(body.value, now), w.freshId, w.device);
      if id.None? {
        return 500;
      }
      var r := events.AcceptEvent(ToEvent(body.value, id.value, now), w.insert);
      match r
      case Accepted(_) => return 202;
      case RejectedEvent => return 400;
      case StorageError => return 500;
    }
  }

  /** What the endpoint accepts: an event with an id, a known type, a confidence in the unit
      interval and a positive confirmation time. The first-seen time may be missing. */
  lemma EdgeEventIsValidIff(b: EdgeEvent, id: string, now: int)
    requires id != ""
    ensures ToEvent(b, id, now).Valid() <==>
            b.eventId != "" && !b.kind.OtherHazard? && 0.0 <= b.confidence <= 1.0 && b.confirmedAtMs > 0
    ensures b.firstSeenMs > 0 && b.confirmedAtMs > 0 ==>
              ToEvent(b, id, now).confirmedAt - ToEvent(b, id, now).firstSeenAt
              == (b.confirmedAtMs - b.firstSeenMs) * MILLISECOND
  {
  }

  lemma ValidWhenever(b: EdgeEvent, id: string, now: int, later: int)
    ensures ToEvent(b, id, now).Valid() == ToEvent(b, id, later).Valid()
  {
  }

  /** Repeating a stored event stores and publishes nothing, and is answered 202 if the
      database works. */
  lemma RepeatStoresNothing(db: Db, b: EdgeEvent, now: int, w: Weather, id: string)
    requires HasKey(db.rows, (GuardianEdge, b.eventId)) && b.deviceId != ""
    requires (GuardianEdge, b.deviceId) in db.devices && db.devices[(GuardianEdge, b.deviceId)].id == id
    requires ToEvent(b, id, now).Valid()
    ensures var (status, db') := PostEvent(db, Some(b), now, w);
            && db'.rows == db.rows && db'.published == db.published
            && (w.device == NoFault == w.insert ==> status == 202)
  {
    UpsertKeepsIds(db, GuardianEdge, Presence(b, now), w.freshId, (GuardianEdge, b.deviceId));
  }

  /** A 202 promises the event is stored; posting it again stores and publishes nothing
      more and is answered 202 again if the database works. */
  lemma PostIsIdempotent(db: Db, body: Option<EdgeEvent>, now: int, w: Weather, later: int, w': Weather)
    requires Sound(db) && w.freshId != "" && PostEvent(db, body, now, w).0 == 202
    ensures var db1 := PostEvent(db, body, now, w).1;
            var (status, db2) := PostEvent(db1, body, later, w');
            && Sound(db1) && HasKey(db1.rows, (GuardianEdge, body.value.eventId))
            && db2.rows == db1.rows && db2.published == db1.published
            && (w'.device == NoFault == w'.insert ==> status == 202)
  {
    var b := body.value;
    var (id, db0) := UpsertDevice(db, GuardianEdge, Presence(b, now), w.freshId);
    AcceptIsSound(db0, ToEvent(b, id, now), w.insert);
    ValidWhenever(b, id, now, later);
    RepeatStoresNothing(PostEvent(db, body, now, w).1, b, later, w', id);
  }

  /** A 400 blames the body: it stores nothing, and would not whatever the database did. */
  lemma RefusedForGood(db: Db, body: Option<EdgeEvent>, now: int, w: Weather, later: int, w': Weather)
    requires Sound(db) && w.freshId != "" && w'.freshId != "" && PostEvent(db, body, now, w).0 == 400
    ensures PostEvent(db, body, now, w).1.rows == db.rows && PostEvent(db, body, later, w').1.rows == db.rows
  {
  }
}

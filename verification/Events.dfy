/** The pipeline every hazard event goes through: validate, resolve the device, store
    idempotently, publish. */
module Events {
  import opened Wrappers
  import opened Domain

  /** How the database behaves towards one statement. A statement can also commit and
      have its answer lost, which its caller sees as a failure. */
  datatype Fault = NoFault | FailsBefore | CommitsThenFails

  datatype Db = Db(
    rows: seq<HazardEvent>,
    published: seq<HazardEvent>,
    devices: map<(ProviderName, string), Device>)

  predicate HasKey(rows: seq<HazardEvent>, key: (ProviderName, string)) {
    exists r | r in rows :: r.Key() == key
  }

  datatype InsertResult = Inserted | DuplicateRow | InsertFailed

  /** `INSERT ... ON CONFLICT (source, dedup_key) DO NOTHING`. */
  function InsertHazardEvent(rows: seq<HazardEvent>, e: HazardEvent, fault: Fault): (InsertResult, seq<HazardEvent>) {
    if fault == FailsBefore then (InsertFailed, rows)
    else
      var rows' := if HasKey(rows, e.Key()) then rows else rows + [e];
      (if fault == CommitsThenFails then InsertFailed
       else if HasKey(rows, e.Key()) then DuplicateRow
       else Inserted, rows')
  }

  datatype AcceptResult = Accepted(duplicate: bool) | RejectedEvent | StorageError

  function Accept(db: Db, e: HazardEvent, fault: Fault): (AcceptResult, Db) {
    if !e.Valid() then (RejectedEvent, db)
    else
      var (r, rows) := InsertHazardEvent(db.rows, e, fault);
      match r
      case DuplicateRow => (Accepted(true), db.(rows := rows))
      case InsertFailed => (StorageError, db.(rows := rows))
      case Inserted => (Accepted(false), db.(rows := rows, published := db.published + [e]))
  }

  function SeenAt(at: int): Option<int> {
    if at == 0 then None else Some(at)
  }

  function Later(a: Option<int>, b: Option<int>): Option<int> {
    if a.None? then b else if b.None? || b.value < a.value then a else b
  }

  function Enrol(s: Sighting, freshId: string): Device {
    Device(freshId, s.name, s.status, s.version, SeenAt(s.lastSeenAt))
  }

  /** What the upsert's conflict clause makes of a known device. */
  function Merge(d: Device, s: Sighting): Device {
    Device(d.id,
           if s.name != "" then s.name else d.name,
           if s.status == StatusUnknown then d.status else s.status,
           if s.version != "" then s.version else d.version,
           Later(SeenAt(s.lastSeenAt), d.lastSeen))
  }

  /** The device's id, and the table with the sighting merged in. */
  function UpsertDevice(db: Db, provider: ProviderName, s: Sighting, freshId: string): (string, Db) {
    var key := (provider, s.externalId);
    var d := if key in db.devices then Merge(db.devices[key], s) else Enrol(s, freshId);
    (d.id, db.(devices := db.devices[key := d]))
  }

  /** `TouchDevice` sets the status whatever it is, by id. */
  function TouchDevice(db: Db, id: string, status: DeviceStatus, at: int): Db {
    db.(devices := map k | k in db.devices ::
      if db.devices[k].id == id
      then db.devices[k].(status := status, lastSeen := Later(Some(at), db.devices[k].lastSeen))
      else db.devices[k])
  }

  /** An event as an adapter hands it over: the device still named by the provider. */
  datatype NormalizedEvent = NormalizedEvent(externalDeviceId: string, event: HazardEvent)

  /** The database's behaviour over one `AcceptFromProvider`, and the id minted for the
      device if it is new. */
  datatype Weather = Weather(device: Fault, freshId: string, insert: Fault)

  /** An event is also a sign of life of its device. */
  function SignOfLife(ne: NormalizedEvent): Sighting {
    Sighting(ne.externalDeviceId, "", StatusUnknown, "", ne.event.confirmedAt)
  }

  function AcceptFromProvider(db: Db, ne: NormalizedEvent, w: Weather): (AcceptResult, Db) {
    if w.device == FailsBefore then (StorageError, db)
    else
      var (id, db') := UpsertDevice(db, ne.event.source, SignOfLife(ne), w.freshId);
      if w.device == CommitsThenFails then (StorageError, db')
      else Accept(db', ne.event.(deviceId := id), w.insert)
  }

  class Service {
    var rows: seq<HazardEvent>
    var published: seq<HazardEvent>
    var devices: map<(ProviderName, string), Device>

    function Contents(): Db
      reads this
    {
      Db(rows, published, devices)
    }

    constructor ()
      ensures Contents() == Db([], [], map[])
    {
      rows, published, devices := [], [], map[];
    }

    method Insert(e: HazardEvent, fault: Fault) returns (r: InsertResult)
      modifies `rows
      ensures (r, rows) == InsertHazardEvent(old(rows), e, fault)
    {
      if fault == FailsBefore {
        return InsertFailed;
      }
      var duplicate := FindKey(e.Key());
      if !duplicate {
        rows := rows + [e];
      }
      r := if fault == CommitsThenFails then InsertFailed else if duplicate then DuplicateRow else Inserted;
    }

    method FindKey(key: (ProviderName, string)) returns (found: bool)
      ensures found <==> HasKey(rows, key)
    {
      for i := 0 to |rows|
        invariant forall j :: 0 <= j < i ==> rows[j].Key() != key
      {
        if rows[i].Key() == key {
          return true;
        }
      }
      return false;
    }

    method AcceptEvent(e: HazardEvent, fault: Fault) returns (r: AcceptResult)
      modifies this
      ensures (r, Contents()) == Accept(old(Contents()), e, fault)
    {
      if !e.Valid() {
        return RejectedEvent;
      }
      var stored := Insert(e, fault);
      match stored
      case DuplicateRow =>
        return Accepted(true);
      case InsertFailed =>
        return StorageError;
      case Inserted =>
        published := published + [e];
        return Accepted(false);
    }

    /** The id, if the statement worked and its answer arrived. */
    method Upsert(provider: ProviderName, s: Sighting, freshId: string, fault: Fault) returns (id: Option<string>)
      modifies this
      ensures Contents() == if fault == FailsBefore then old(Contents())
                            else UpsertDevice(old(Contents()), provider, s, freshId).1
      ensures id == if fault == NoFault then Some(UpsertDevice(old(Contents()), provider, s, freshId).0) else None
    {
      if fault == FailsBefore {
        return None;
      }
      var key := (provider, s.externalId);
      var d := if key in devices then Merge(devices[key], s) else Enrol(s, freshId);
      devices := devices[key := d];
      id := if fault == NoFault then Some(d.id) else None;
    }

    method Touch(id: string, status: DeviceStatus, at: int, fault: Fault)
      modifies this
      ensures Contents() ==
              if fault == FailsBefore then old(Contents()) else TouchDevice(old(Contents()), id, status, at)
    {
      if fault != FailsBefore {
        devices := TouchDevice(Contents(), id, status, at).devices;
      }
    }

    method AcceptProviderEvent(ne: NormalizedEvent, w: Weather) returns (r: AcceptResult)
      modifies this
      ensures (r, Contents()) == AcceptFromProvider(old(Contents()), ne, w)
    {
      var id := Upsert(ne.event.source, SignOfLife(ne), w.freshId, w.device);
      if id.None? {
        return StorageError;
      }
      r := AcceptEvent(ne.event.(deviceId := id.value), w.insert);
    }
  }

  // ---- What every call keeps --------------------------------------------------------

  ghost predicate UniqueKeys(rows: seq<HazardEvent>) {
    forall i, j :: 0 <= i < j < |rows| ==> rows[i].Key() != rows[j].Key()
  }

  /** The table honours its unique constraint; what was published is stored, once each;
      every stored event is valid; every device has an id. */
  ghost predicate Sound(db: Db) {
    && UniqueKeys(db.rows) && UniqueKeys(db.published)
    && (forall e :: e in db.published ==> e in db.rows)
    && (forall e :: e in db.rows ==> e.Valid())
    && (forall k :: k in db.devices ==> db.devices[k].id != "")
  }

  lemma AppendKeepsUnique(rows: seq<HazardEvent>, e: HazardEvent)
    requires UniqueKeys(rows) && !HasKey(rows, e.Key())
    ensures UniqueKeys(rows + [e])
  {
    forall i | 0 <= i < |rows| ensures rows[i].Key() != e.Key() {
      assert rows[i] in rows;
    }
  }

  lemma SameKeySameRow(rows: seq<HazardEvent>, a: HazardEvent, b: HazardEvent)
    requires UniqueKeys(rows) && a in rows && b in rows && a.Key() == b.Key()
    ensures a == b
  {
  }

  lemma KeysStay(rows: seq<HazardEvent>, rows': seq<HazardEvent>, key: (ProviderName, string))
    requires HasKey(rows, key) && rows <= rows'
    ensures HasKey(rows', key)
  {
    var r :| r in rows && r.Key() == key;
    assert r in rows';
  }

  ghost predicate StoredOnce(rows: seq<HazardEvent>, key: (ProviderName, string)) {
    exists i :: 0 <= i < |rows| && rows[i].Key() == key
                && forall j :: 0 <= j < |rows| && rows[j].Key() == key ==> j == i
  }

  lemma UniqueMeansOnce(rows: seq<HazardEvent>, key: (ProviderName, string))
    requires UniqueKeys(rows) && HasKey(rows, key)
    ensures StoredOnce(rows, key)
  {
    var r :| r in rows && r.Key() == key;
    var i :| 0 <= i < |rows| && rows[i] == r;
    forall j | 0 <= j < |rows| && rows[j].Key() == key ensures j == i {
    }
  }

  lemma PublishedKeysAreStored(db: Db, key: (ProviderName, string))
    requires Sound(db)
    ensures HasKey(db.published, key) ==> HasKey(db.rows, key)
  {
    forall p | p in db.published && p.Key() == key ensures HasKey(db.rows, key) {
      assert p in db.rows;
    }
  }

  /** Whatever the faults, accepting keeps the database sound and everything stored
      before; an accepted event's key is stored, and a stored event was there before or
      is the one offered. */
  lemma AcceptIsSound(db: Db, e: HazardEvent, fault: Fault)
    requires Sound(db)
    ensures var (r, db') := Accept(db, e, fault);
            && Sound(db') && db.rows <= db'.rows && db.published <= db'.published && db'.devices == db.devices
            && (r.Accepted? ==> e.Valid() && HasKey(db'.rows, e.Key()))
            && (db'.rows == db.rows || (db'.rows == db.rows + [e] && !HasKey(db.rows, e.Key())))
            && (r == Accepted(false) <==> e.Valid() && fault == NoFault && !HasKey(db.rows, e.Key()))
            && (db'.published == if r == Accepted(false) then db.published + [e] else db.published)
  {
    if e.Valid() && fault != FailsBefore && !HasKey(db.rows, e.Key()) {
      AppendKeepsUnique(db.rows, e);
      assert e in db.rows + [e];
      PublishedKeysAreStored(db, e.Key());
      AppendKeepsUnique(db.published, e);
    }
  }

  /** The same for events handed over by providers. */
  lemma AcceptFromProviderIsSound(db: Db, ne: NormalizedEvent, w: Weather)
    requires Sound(db) && w.freshId != ""
    ensures var (r, db') := AcceptFromProvider(db, ne, w);
            && Sound(db') && db.rows <= db'.rows
            && (r.Accepted? ==> HasKey(db'.rows, ne.event.Key()))
            && (r == RejectedEvent ==> !ne.event.(deviceId := "known").Valid())
            && (w.device == NoFault == w.insert && ne.event.(deviceId := "known").Valid() ==> r.Accepted?)
  {
    if w.device != FailsBefore {
      var (id, db1) := UpsertDevice(db, ne.event.source, SignOfLife(ne), w.freshId);
      assert id != "" && Sound(db1);
      AcceptIsSound(db1, ne.event.(deviceId := id), w.insert);
    }
  }

  /** The unique constraint is on source and key, not on the device: a second device
      reusing an event id gets "accepted" and its event is dropped. */
  lemma DedupIgnoresDevice(db: Db, e: HazardEvent, other: string)
    requires Sound(db) && e in db.rows && other != "" && other != e.deviceId
    ensures var e' := e.(deviceId := other);
            Accept(db, e', NoFault) == (Accepted(true), db) && e' !in db.rows
  {
    var e' := e.(deviceId := other);
    assert e.Key() == e'.Key() && HasKey(db.rows, e'.Key());
    if e' in db.rows {
      SameKeySameRow(db.rows, e, e');
    }
  }

  // ---- What is known about devices --------------------------------------------------------

  /** A sighting never erases what is known, nor moves the time last seen back; what it
      does say is taken over, and saying it again changes nothing. */
  lemma MergeKeepsKnowledge(d: Device, s: Sighting)
    ensures var m := Merge(d, s);
            && m.id == d.id && Merge(m, s) == m
            && (d.name != "" ==> m.name != "")
            && (s.name != "" ==> m.name == s.name) && (s.name == "" ==> m.name == d.name)
            && (d.status != StatusUnknown ==> m.status != StatusUnknown)
            && (s.status != StatusUnknown ==> m.status == s.status)
            && (d.version != "" ==> m.version != "") && (s.version != "" ==> m.version == s.version)
            && (d.lastSeen.Some? ==> m.lastSeen.Some? && d.lastSeen.value <= m.lastSeen.value)
            && (s.lastSeenAt != 0 ==> m.lastSeen.Some? && s.lastSeenAt <= m.lastSeen.value)
            && (m.lastSeen == d.lastSeen || m.lastSeen == Some(s.lastSeenAt))
  {
  }

  /** The time last seen does not depend on the order sightings arrive in. */
  lemma SightingsCommuteInTime(d: Device, a: Sighting, b: Sighting)
    ensures Merge(Merge(d, a), b).lastSeen == Merge(Merge(d, b), a).lastSeen
  {
  }

  /** An upsert keeps every other device as it is and every known id, and leaves its own
      device registered under the id it returns. */
  lemma UpsertKeepsIds(db: Db, provider: ProviderName, s: Sighting, freshId: string, key: (ProviderName, string))
    ensures var (id, db') := UpsertDevice(db, provider, s, freshId);
            && (key in db.devices ==> key in db'.devices && db'.devices[key].id == db.devices[key].id)
            && (key in db.devices && key != (provider, s.externalId) ==> db'.devices[key] == db.devices[key])
            && (key in db'.devices ==> key in db.devices || key == (provider, s.externalId))
            && (provider, s.externalId) in db'.devices && db'.devices[(provider, s.externalId)].id == id
            && ((provider, s.externalId) !in db.devices ==> id == freshId)
            && db'.rows == db.rows && db'.published == db.published
  {
  }
}

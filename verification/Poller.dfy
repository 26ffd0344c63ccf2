/** Polling one provider: a watermark, an overlap, and what they guarantee. */
module Poller {
  import opened Wrappers
  import opened Domain
  import opened Events
  import opened Alerts
  import Adapter = AlphaSense
  import Retry

  const MINUTE: int := 60 * SECOND

  /** A device the provider lists, the id it would get, and how its upsert goes. */
  datatype Found = Found(device: Sighting, freshId: string, fault: Fault)

  /** Everything one cycle meets: when it starts, the devices listed, whether the event
      request succeeds, when the provider compiles its answer and what is in it, and how
      the database treats each event. */
  datatype Tick = Tick(
    start: int,
    devices: seq<Found>,
    answered: bool,
    listedAt: int,
    alerts: seq<WireAlert>,
    received: int,
    weather: nat -> Weather)

  /** The watermark, the instants the provider was asked about, and the database. */
  datatype Polling = Polling(since: int, asked: seq<int>, db: Db)

  function EffectiveOverlap(configured: int): int {
    if configured <= 0 then MINUTE else configured
  }

  /** The instant the provider is asked about, cut to whole seconds by its format. */
  function Query(since: int, overlap: int): int {
    (since - overlap) / SECOND * SECOND
  }

  function UpsertFound(db: Db, f: Found): Db {
    if f.fault == FailsBefore then db else UpsertDevice(db, AlphaSense, f.device, f.freshId).1
  }

  function UpsertAll(db: Db, devices: seq<Found>): Db {
    if devices == [] then db
    else UpsertFound(UpsertAll(db, devices[..|devices| - 1]), devices[|devices| - 1])
  }

  function AcceptAll(db: Db, evs: seq<NormalizedEvent>, weather: nat -> Weather): Db {
    if evs == [] then db
    else
      var n := |evs| - 1;
      AcceptFromProvider(AcceptAll(db, evs[..n], weather), evs[n], weather(n)).1
  }

  predicate Succeeds(t: Tick) {
    t.answered && FirstProblem(t.alerts, t.received).None?
  }

  /** One cycle. A failed fetch keeps the watermark; a failed insert does not. */
  function Cycle(st: Polling, overlap: int, t: Tick): Polling {
    var db := UpsertAll(st.db, t.devices);
    var asked := st.asked + [Query(st.since, overlap)];
    if Succeeds(t) then Polling(t.start, asked, AcceptAll(db, Normalized(t.alerts, t.received), t.weather))
    else Polling(st.since, asked, db)
  }

  function Run(st: Polling, overlap: int, ticks: seq<Tick>): Polling {
    if ticks == [] then st else Cycle(Run(st, overlap, ticks[..|ticks| - 1]), overlap, ticks[|ticks| - 1])
  }

  /** A tick as the adapter's two requests let it happen: no devices if the first fails, no
      answer if the second does. */
  function Actual(w: Adapter.World, l: Adapter.Link, t: Tick): (Tick, Adapter.Link) {
    var (devices, l1) := Adapter.Request(w, true, l);
    var (events, l2) := Adapter.Request(w, true, l1);
    (t.(devices := if devices == Retry.Done then t.devices else [], answered := events == Retry.Done), l2)
  }

  function Actuals(w: Adapter.World, l: Adapter.Link, ticks: seq<Tick>): (seq<Tick>, Adapter.Link) {
    if ticks == [] then ([], l)
    else
      var n := |ticks| - 1;
      var (earlier, l') := Actuals(w, l, ticks[..n]);
      var (t, l'') := Actual(w, l', ticks[n]);
      (earlier + [t], l'')
  }

  /** One cycle with its requests. */
  function PolledCycle(w: Adapter.World, l: Adapter.Link, st: Polling, overlap: int, t: Tick): (Polling, Adapter.Link) {
    var (t', l') := Actual(w, l, t);
    (Cycle(st, overlap, t'), l')
  }

  function Polled(w: Adapter.World, l: Adapter.Link, st: Polling, overlap: int, ticks: seq<Tick>)
    : (Polling, Adapter.Link)
  {
    if ticks == [] then (st, l)
    else
      var n := |ticks| - 1;
      var (st', l') := Polled(w, l, st, overlap, ticks[..n]);
      PolledCycle(w, l', st', overlap, ticks[n])
  }

  class Poller {
    const interval: int
    const events: Service
    const client: Adapter.Client
    var overlap: int
    var asked: seq<int>

    constructor (interval: int, overlap: int, events: Service, client: Adapter.Client)
      ensures this.interval == interval && this.overlap == overlap && this.events == events
      ensures this.client == client && asked == []
    {
      this.interval, this.overlap, this.events, this.client, asked := interval, overlap, events, client, [];
    }

    method PollDevices(devices: seq<Found>)
      modifies events
      ensures events.Contents() == UpsertAll(old(events.Contents()), devices)
    {
      for i := 0 to |devices|
        invariant events.Contents() == UpsertAll(old(events.Contents()), devices[..i])
      {
        assert devices[..i + 1][..i] == devices[..i];
        var _ := events.Upsert(AlphaSense, devices[i].device, devices[i].freshId, devices[i].fault);
      }
      assert devices[..|devices|] == devices;
    }

    method AcceptEvents(evs: seq<NormalizedEvent>, weather: nat -> Weather)
      modifies events
      ensures events.Contents() == AcceptAll(old(events.Contents()), evs, weather)
    {
      for i := 0 to |evs|
        invariant events.Contents() == AcceptAll(old(events.Contents()), evs[..i], weather)
      {
        assert evs[..i + 1][..i] == evs[..i];
        var _ := events.AcceptProviderEvent(evs[i], weather(i));
      }
      assert evs[..|evs|] == evs;
    }

    /** The first half: device state, if it can be had. */
    method RefreshDevices(devices: seq<Found>)
      requires client.Valid()
      modifies events, client, client.tokens
      ensures var (outcome, l) := Adapter.Request(client.world, true, old(client.Snapshot()));
              && client.Snapshot() == l
              && events.Contents() == UpsertAll(old(events.Contents()), if outcome == Retry.Done then devices else [])
    {
      var outcome := client.Do(true);
      if outcome == Retry.Done {
        PollDevices(devices);
      }
    }

    /** The second half: events since the watermark less the overlap. */
    method RefreshEvents(since: int, t: Tick) returns (next: int)
      requires client.Valid()
      modifies this`asked, events, client, client.tokens
      ensures asked == old(asked) + [Query(since, overlap)]
      ensures var (outcome, l) := Adapter.Request(client.world, true, old(client.Snapshot()));
              var ok := Succeeds(t.(answered := outcome == Retry.Done));
              && client.Snapshot() == l && next == (if ok then t.start else since)
              && events.Contents() ==
                 if ok then AcceptAll(old(events.Contents()), Normalized(t.alerts, t.received), t.weather)
                 else old(events.Contents())
    {
      asked := asked + [(since - overlap) / SECOND * SECOND];
      var evs, err := FetchEvents(client, t.alerts, t.received);
      if err.Some? {
        return since;
      }
      AcceptEvents(evs, t.weather);
      return t.start;
    }

    method DoCycle(since: int, t: Tick) returns (next: int)
      requires client.Valid()
      modifies this`asked, events, client, client.tokens
      ensures (Polling(next, asked, events.Contents()), client.Snapshot())
           == PolledCycle(client.world, old(client.Snapshot()),
                          Polling(since, old(asked), old(events.Contents())), overlap, t)
    {
      RefreshDevices(t.devices);
      next := RefreshEvents(since, t);
    }

    /** Polls until the context is done, here after the last tick. */
    method RunTicks(now: int, ticks: seq<Tick>) returns (since: int)
      requires client.Valid()
      modifies this, events, client, client.tokens
      ensures overlap == EffectiveOverlap(old(overlap))
      ensures (Polling(since, asked, events.Contents()), client.Snapshot())
           == Polled(client.world, old(client.Snapshot()),
                     Polling(now - interval, old(asked), old(events.Contents())), overlap, ticks)
    {
      if overlap <= 0 {
        overlap := MINUTE;
      }
      since := Loop(now - interval, ticks);
    }

    method Loop(start: int, ticks: seq<Tick>) returns (since: int)
      requires client.Valid()
      modifies this`asked, events, client, client.tokens
      ensures (Polling(since, asked, events.Contents()), client.Snapshot())
           == Polled(client.world, old(client.Snapshot()),
                     Polling(start, old(asked), old(events.Contents())), overlap, ticks)
    {
      since := start;
      ghost var st, l := Polling(since, asked, events.Contents()), client.Snapshot();
      ghost var st0, l0 := st, l;
      for i := 0 to |ticks|
        invariant st == Polling(since, asked, events.Contents()) && l == client.Snapshot()
        invariant (st, l) == Polled(client.world, l0, st0, overlap, ticks[..i])
      {
        PolledExtends(client.world, l0, st0, overlap, ticks, i, st, l);
        since := DoCycle(since, ticks[i]);
        st, l := Polling(since, asked, events.Contents()), client.Snapshot();
      }
      assert ticks[..|ticks|] == ticks;
    }
  }

  lemma PolledExtends(
      w: Adapter.World, l0: Adapter.Link, st0: Polling, overlap: int, ticks: seq<Tick>, i: nat,
      st: Polling, l: Adapter.Link)
    requires i < |ticks| && (st, l) == Polled(w, l0, st0, overlap, ticks[..i])
    ensures Polled(w, l0, st0, overlap, ticks[..i + 1]) == PolledCycle(w, l, st, overlap, ticks[i])
  {
    assert ticks[..i + 1][..i] == ticks[..i];
  }

  /** What the poller does is a run over the ticks its requests let happen. */
  lemma {:induction false} PolledIsRun(
      w: Adapter.World, l: Adapter.Link, st: Polling, overlap: int, ticks: seq<Tick>)
    ensures var (actual, l') := Actuals(w, l, ticks);
            Polled(w, l, st, overlap, ticks) == (Run(st, overlap, actual), l') && |actual| == |ticks|
  {
    if ticks != [] {
      var n := |ticks| - 1;
      PolledIsRun(w, l, st, overlap, ticks[..n]);
      var (earlier, l1) := Actuals(w, l, ticks[..n]);
      RunExtends(st, overlap, earlier, Actual(w, l1, ticks[n]).0);
    }
  }

  lemma RunExtends(st: Polling, overlap: int, ticks: seq<Tick>, t: Tick)
    ensures Run(st, overlap, ticks + [t]) == Cycle(Run(st, overlap, ticks), overlap, t)
  {
    assert (ticks + [t])[..|ticks|] == ticks;
  }

  // ---- What polling costs ----------------------------------------------------------------

  /** Ten tries, sixty token requests and two invalidations a cycle. */
  ghost predicate CostsAtMost(l: Adapter.Link, l': Adapter.Link, cycles: nat) {
    && |l.trace| <= |l'.trace| <= |l.trace| + 10 * cycles
    && l'.own <= l.own + 60 * cycles
    && l'.drops <= l.drops + 2 * cycles
  }

  lemma CycleIsBounded(w: Adapter.World, l: Adapter.Link, t: Tick)
    ensures CostsAtMost(l, Actual(w, l, t).1, 1)
  {
    var first := Adapter.RequestIsBounded(w, true, l);
    var second := Adapter.RequestIsBounded(w, true, Adapter.Request(w, true, l).1);
  }

  /** Whatever the provider, the token endpoint and other users of the token manager do, so
      many cycles make at most ten API tries and sixty token requests each. */
  lemma {:induction false} PollingIsBounded(w: Adapter.World, l: Adapter.Link, ticks: seq<Tick>)
    ensures |Actuals(w, l, ticks).0| == |ticks| && CostsAtMost(l, Actuals(w, l, ticks).1, |ticks|)
  {
    if ticks != [] {
      var n := |ticks| - 1;
      PollingIsBounded(w, l, ticks[..n]);
      CycleIsBounded(w, Actuals(w, l, ticks[..n]).1, ticks[n]);
    }
  }

  // ---- The watermark -------------------------------------------------------------------

  /** Cycles do not overlap and the provider answers during the cycle. */
  ghost predicate Orderly(ticks: seq<Tick>) {
    && (forall k :: 0 <= k < |ticks| ==> ticks[k].start <= ticks[k].listedAt)
    && (forall j, k :: 0 <= j < k < |ticks| ==> ticks[j].listedAt <= ticks[k].start)
  }

  /** The watermark is the start of the last cycle that succeeded, or where polling began. */
  lemma {:induction false} WatermarkIsLastSuccess(st: Polling, overlap: int, ticks: seq<Tick>) returns (last: int)
    ensures -1 <= last < |ticks|
    ensures Run(st, overlap, ticks).since == if last == -1 then st.since else ticks[last].start
    ensures last >= 0 ==> Succeeds(ticks[last])
    ensures forall k :: last < k < |ticks| ==> !Succeeds(ticks[k])
  {
    last := -1;
    if ticks != [] {
      var n := |ticks| - 1;
      if Succeeds(ticks[n]) {
        last := n;
      } else {
        last := WatermarkIsLastSuccess(st, overlap, ticks[..n]);
      }
    }
  }

  lemma QueryIsBelow(since: int, overlap: int)
    ensures Query(since, overlap) <= since - overlap < Query(since, overlap) + SECOND
  {
  }

  /** The instant asked about in a cycle. */
  ghost function Asked(st: Polling, overlap: int, ticks: seq<Tick>, k: nat): int
    requires k < |ticks|
  {
    var asked := Run(st, overlap, ticks[..k + 1]).asked;
    if asked == [] then 0 else asked[|asked| - 1]
  }

  lemma AskedIsQuery(st: Polling, overlap: int, ticks: seq<Tick>, k: nat)
    requires k < |ticks|
    ensures Asked(st, overlap, ticks, k) == Query(Run(st, overlap, ticks[..k]).since, overlap)
  {
    assert ticks[..k + 1][..k] == ticks[..k];
  }

  /** What the provider owes: an alert it has made visible is listed whenever it is asked
      about a time before the alert's confirmation. */
  ghost predicate Lists(st: Polling, overlap: int, ticks: seq<Tick>, a: WireAlert, visibleAt: int) {
    a.confirmed.Some? &&
    forall k :: 0 <= k < |ticks| && ticks[k].answered && visibleAt <= ticks[k].listedAt
                && Asked(st, overlap, ticks, k) < a.confirmed.value
                ==> a in ticks[k].alerts
  }

  /** No gap: an alert confirmed after the first window opens, and visible at the provider
      within the overlap of its confirmation, is offered to the pipeline by the first
      successful fetch that comes after it is visible, however many fetches failed. */
  lemma FirstSuccessOffers(st: Polling, overlap: int, ticks: seq<Tick>, k: nat, a: WireAlert, visibleAt: int)
    returns (ne: NormalizedEvent)
    requires Orderly(ticks) && Lists(st, overlap, ticks, a, visibleAt)
    requires st.since - overlap < a.confirmed.value && visibleAt <= a.confirmed.value + overlap
    requires k < |ticks| && Succeeds(ticks[k]) && visibleAt <= ticks[k].listedAt
    requires forall j :: 0 <= j < k && Succeeds(ticks[j]) ==> ticks[j].listedAt < visibleAt
    ensures Normalize(a, ticks[k].received) == Ok(ne) && ne in Normalized(ticks[k].alerts, ticks[k].received)
  {
    var last := WatermarkIsLastSuccess(st, overlap, ticks[..k]);
    var since := Run(st, overlap, ticks[..k]).since;
    QueryIsBelow(since, overlap);
    AskedIsQuery(st, overlap, ticks, k);
    if last >= 0 {
      assert ticks[last].listedAt < visibleAt;
    }
    assert a in ticks[k].alerts;
    ProblemIffMalformed(ticks[k].alerts, ticks[k].received);
    ne := Normalize(a, ticks[k].received).value;
    NormalizedIsExact(ticks[k].alerts, ticks[k].received, ne);
  }

  // ---- Storage over a whole run ----------------------------------------------------------

  ghost predicate Fresh(t: Tick) {
    && (forall i: nat :: t.weather(i).freshId != "")
    && (forall s :: s in t.devices ==> s.freshId != "")
  }

  lemma {:induction false} UpsertKeepsSound(db: Db, devices: seq<Found>)
    requires Sound(db) && forall s :: s in devices ==> s.freshId != ""
    ensures Sound(UpsertAll(db, devices)) && UpsertAll(db, devices).rows == db.rows
  {
    if devices != [] {
      UpsertKeepsSound(db, devices[..|devices| - 1]);
    }
  }

  lemma {:induction false} AcceptAllIsSound(db: Db, evs: seq<NormalizedEvent>, weather: nat -> Weather)
    requires Sound(db) && forall i: nat :: weather(i).freshId != ""
    ensures Sound(AcceptAll(db, evs, weather)) && db.rows <= AcceptAll(db, evs, weather).rows
  {
    if evs != [] {
      var n := |evs| - 1;
      AcceptAllIsSound(db, evs[..n], weather);
      AcceptFromProviderIsSound(AcceptAll(db, evs[..n], weather), evs[n], weather(n));
    }
  }

  predicate Storable(ne: NormalizedEvent, w: Weather) {
    w.device == NoFault && w.insert == NoFault && ne.event.(deviceId := "known").Valid()
  }

  lemma AcceptOneStores(db: Db, ne: NormalizedEvent, w: Weather)
    requires Sound(db) && w.freshId != "" && Storable(ne, w)
    ensures HasKey(AcceptFromProvider(db, ne, w).1.rows, ne.event.Key())
  {
    AcceptFromProviderIsSound(db, ne, w);
  }

  lemma AcceptOneKeeps(db: Db, ne: NormalizedEvent, w: Weather, key: (ProviderName, string))
    requires Sound(db) && w.freshId != "" && HasKey(db.rows, key)
    ensures HasKey(AcceptFromProvider(db, ne, w).1.rows, key)
  {
    AcceptFromProviderIsSound(db, ne, w);
    KeysStay(db.rows, AcceptFromProvider(db, ne, w).1.rows, key);
  }

  /** Each event the database did not fail on is stored once the whole list was offered. */
  lemma {:induction false} AcceptAllStores(db: Db, evs: seq<NormalizedEvent>, weather: nat -> Weather, i: nat)
    requires Sound(db) && forall k: nat :: weather(k).freshId != ""
    requires i < |evs| && Storable(evs[i], weather(i))
    ensures HasKey(AcceptAll(db, evs, weather).rows, evs[i].event.Key())
  {
    var n := |evs| - 1;
    AcceptAllIsSound(db, evs[..n], weather);
    if i < n {
      AcceptAllStores(db, evs[..n], weather, i);
      AcceptOneKeeps(AcceptAll(db, evs[..n], weather), evs[n], weather(n), evs[i].event.Key());
    } else {
      AcceptOneStores(AcceptAll(db, evs[..n], weather), evs[n], weather(n));
    }
  }

  lemma CycleIsSound(st: Polling, overlap: int, t: Tick)
    requires Sound(st.db) && Fresh(t)
    ensures Sound(Cycle(st, overlap, t).db) && st.db.rows <= Cycle(st, overlap, t).db.rows
  {
    UpsertKeepsSound(st.db, t.devices);
    AcceptAllIsSound(UpsertAll(st.db, t.devices), Normalized(t.alerts, t.received), t.weather);
  }

  lemma {:induction false} RunIsSound(st: Polling, overlap: int, ticks: seq<Tick>, k: nat)
    requires Sound(st.db) && (forall t :: t in ticks ==> Fresh(t)) && k <= |ticks|
    ensures Sound(Run(st, overlap, ticks).db) && Run(st, overlap, ticks[..k]).db.rows <= Run(st, overlap, ticks).db.rows
    decreases |ticks|
  {
    if k == |ticks| {
      assert ticks[..k] == ticks;
      if ticks != [] {
        RunIsSound(st, overlap, ticks[..k - 1], 0);
        CycleIsSound(Run(st, overlap, ticks[..k - 1]), overlap, ticks[k - 1]);
      }
    } else {
      var n := |ticks| - 1;
      RunIsSound(st, overlap, ticks[..n], k);
      assert ticks[..n][..k] == ticks[..k];
      CycleIsSound(Run(st, overlap, ticks[..n]), overlap, ticks[n]);
    }
  }

  /** The database fails on none of a cycle's events. */
  ghost predicate Calm(t: Tick) {
    forall i: nat :: t.weather(i).device == NoFault == t.weather(i).insert
  }

  lemma CycleStores(st: Polling, overlap: int, t: Tick, a: WireAlert, ne: NormalizedEvent)
    requires Sound(st.db) && Fresh(t) && Calm(t) && Succeeds(t)
    requires Normalize(a, t.received) == Ok(ne) && a.confirmed.value != 0
    requires ne in Normalized(t.alerts, t.received)
    ensures HasKey(Cycle(st, overlap, t).db.rows, (AlphaSense, a.alertId))
  {
    NormalizedIsValidIff(a, t.received, "known");
    var evs := Normalized(t.alerts, t.received);
    var i :| 0 <= i < |evs| && evs[i] == ne;
    UpsertKeepsSound(st.db, t.devices);
    AcceptAllStores(UpsertAll(st.db, t.devices), evs, t.weather, i);
  }

  /** The alert's event is stored by that fetch if the database does not fail during it,
      and from then on it stays stored exactly once although overlapping windows keep
      offering it. */
  lemma FirstSuccessStores(st: Polling, overlap: int, ticks: seq<Tick>, k: nat, a: WireAlert, visibleAt: int, m: nat)
    requires Orderly(ticks) && Lists(st, overlap, ticks, a, visibleAt)
    requires st.since - overlap < a.confirmed.value && visibleAt <= a.confirmed.value + overlap
    requires k < |ticks| && Succeeds(ticks[k]) && visibleAt <= ticks[k].listedAt
    requires forall j :: 0 <= j < k && Succeeds(ticks[j]) ==> ticks[j].listedAt < visibleAt
    requires Sound(st.db) && (forall t :: t in ticks ==> Fresh(t)) && a.confirmed.value != 0
    requires Calm(ticks[k]) && k < m <= |ticks|
    ensures StoredOnce(Run(st, overlap, ticks[..m]).db.rows, (AlphaSense, a.alertId))
  {
    var ne := FirstSuccessOffers(st, overlap, ticks, k, a, visibleAt);
    RunIsSound(st, overlap, ticks[..k], 0);
    CycleStores(Run(st, overlap, ticks[..k]), overlap, ticks[k], a, ne);
    assert ticks[..k + 1][..k] == ticks[..k];
    StaysStored(st, overlap, ticks, k + 1, m, (AlphaSense, a.alertId));
  }

  lemma StaysStored(st: Polling, overlap: int, ticks: seq<Tick>, k: nat, m: nat, key: (ProviderName, string))
    requires Sound(st.db) && (forall t :: t in ticks ==> Fresh(t)) && k <= m <= |ticks|
    requires HasKey(Run(st, overlap, ticks[..k]).db.rows, key)
    ensures StoredOnce(Run(st, overlap, ticks[..m]).db.rows, key)
  {
    RunIsSound(st, overlap, ticks[..m], k);
    assert ticks[..m][..k] == ticks[..k];
    KeysStay(Run(st, overlap, ticks[..k]).db.rows, Run(st, overlap, ticks[..m]).db.rows, key);
    UniqueMeansOnce(Run(st, overlap, ticks[..m]).db.rows, key);
  }

  // ---- Where the promise ends ----------------------------------------------------------

  /** The watermark moves in a cycle iff the fetch worked and every alert listed was well
      formed (given that time passed). */
  lemma WatermarkMovesIff(st: Polling, overlap: int, t: Tick)
    requires st.since < t.start
    ensures Cycle(st, overlap, t).since == (if Succeeds(t) then t.start else st.since)
    ensures Cycle(st, overlap, t).since != st.since <==>
            t.answered && forall a :: a in t.alerts ==> Normalize(a, t.received).Ok?
  {
    ProblemIffMalformed(t.alerts, t.received);
  }

  /** A malformed alert that stays listed blocks its provider: the watermark never moves
      and none of the good alerts listed beside it is ever stored. */
  lemma {:induction false} MalformedAlertBlocks(st: Polling, overlap: int, ticks: seq<Tick>, bad: WireAlert)
    requires forall t :: t in ticks ==> bad in t.alerts && Normalize(bad, t.received).Err?
    ensures Run(st, overlap, ticks).since == st.since && Run(st, overlap, ticks).db.rows == st.db.rows
  {
    if ticks != [] {
      var t := ticks[|ticks| - 1];
      MalformedAlertBlocks(st, overlap, ticks[..|ticks| - 1], bad);
      ProblemIffMalformed(t.alerts, t.received);
      UpsertKeepsRows(Run(st, overlap, ticks[..|ticks| - 1]).db, t.devices);
    }
  }

  lemma {:induction false} UpsertKeepsRows(db: Db, devices: seq<Found>)
    ensures UpsertAll(db, devices).rows == db.rows
  {
    if devices != [] {
      UpsertKeepsRows(db, devices[..|devices| - 1]);
    }
  }

  lemma WatermarkGrows(st: Polling, overlap: int, ticks: seq<Tick>, k: nat)
    requires Orderly(ticks) && k < |ticks| && Succeeds(ticks[k])
    ensures ticks[k].start <= Run(st, overlap, ticks).since
  {
    var last := WatermarkIsLastSuccess(st, overlap, ticks);
    if last > k {
      assert ticks[k].start <= ticks[k].listedAt <= ticks[last].start;
    }
  }

  /** From a successful fetch on, no later question reaches further back than the next one. */
  lemma WindowsNeverReturn(st: Polling, overlap: int, ticks: seq<Tick>, k: nat, m: nat)
    requires Orderly(ticks) && k < m < |ticks| && Succeeds(ticks[k])
    ensures Query(ticks[k].start, overlap) <= Asked(st, overlap, ticks, m)
  {
    AskedIsQuery(st, overlap, ticks, m);
    WatermarkGrows(st, overlap, ticks[..m], k);
    QueryIsMonotone(ticks[k].start, Run(st, overlap, ticks[..m]).since, overlap);
  }

  /** The other side of the provider's bargain: it lists the alert only when asked about an
      earlier instant, and no other alert under its id. */
  ghost predicate ListsOnlyLater(st: Polling, overlap: int, ticks: seq<Tick>, a: WireAlert) {
    a.confirmed.Some? &&
    forall k, x :: 0 <= k < |ticks| && ticks[k].answered && x in ticks[k].alerts && x.alertId == a.alertId ==>
      x == a && Asked(st, overlap, ticks, k) < a.confirmed.value
  }

  lemma AcceptOneAdds(db: Db, ne: NormalizedEvent, w: Weather, key: (ProviderName, string))
    requires HasKey(AcceptFromProvider(db, ne, w).1.rows, key)
    ensures HasKey(db.rows, key) || ne.event.Key() == key
  {
    var rows := AcceptFromProvider(db, ne, w).1.rows;
    var r :| r in rows && r.Key() == key;
    assert r in db.rows || r.Key() == ne.event.Key();
  }

  lemma {:induction false} AcceptAllAdds(
      db: Db, evs: seq<NormalizedEvent>, weather: nat -> Weather, key: (ProviderName, string))
    requires HasKey(AcceptAll(db, evs, weather).rows, key)
    ensures HasKey(db.rows, key) || exists ne :: ne in evs && ne.event.Key() == key
  {
    if evs != [] {
      var n := |evs| - 1;
      AcceptOneAdds(AcceptAll(db, evs[..n], weather), evs[n], weather(n), key);
      if evs[n].event.Key() != key {
        AcceptAllAdds(db, evs[..n], weather, key);
        assert forall ne :: ne in evs[..n] ==> ne in evs;
      }
    }
  }

  /** A cycle stores an alert's event only if it was stored or lists that alert. */
  lemma CycleAddsListed(st: Polling, overlap: int, t: Tick, id: string)
    requires HasKey(Cycle(st, overlap, t).db.rows, (AlphaSense, id))
    ensures HasKey(st.db.rows, (AlphaSense, id)) || (t.answered && exists x :: x in t.alerts && x.alertId == id)
  {
    UpsertKeepsRows(st.db, t.devices);
    if Succeeds(t) && !HasKey(st.db.rows, (AlphaSense, id)) {
      var evs := Normalized(t.alerts, t.received);
      AcceptAllAdds(UpsertAll(st.db, t.devices), evs, t.weather, (AlphaSense, id));
      var ne :| ne in evs && ne.event.Key() == (AlphaSense, id);
      NormalizedIsExact(t.alerts, t.received, ne);
      var x :| x in t.alerts && Normalize(x, t.received) == Ok(ne);
      assert x.alertId == id;
    }
  }

  lemma UnlistedStaysOut(st: Polling, overlap: int, t: Tick, id: string)
    requires !HasKey(st.db.rows, (AlphaSense, id))
    requires t.answered ==> forall x :: x in t.alerts ==> x.alertId != id
    ensures !HasKey(Cycle(st, overlap, t).db.rows, (AlphaSense, id))
  {
    if HasKey(Cycle(st, overlap, t).db.rows, (AlphaSense, id)) {
      CycleAddsListed(st, overlap, t, id);
    }
  }

  lemma NotListedAgain(st: Polling, overlap: int, ticks: seq<Tick>, k: nat, m: nat, a: WireAlert)
    requires Orderly(ticks) && ListsOnlyLater(st, overlap, ticks, a)
    requires k < m < |ticks| && Succeeds(ticks[k]) && Query(ticks[k].start, overlap) >= a.confirmed.value
    ensures ticks[m].answered ==> forall x :: x in ticks[m].alerts ==> x.alertId != a.alertId
  {
    WindowsNeverReturn(st, overlap, ticks, k, m);
  }

  predicate Omits(t: Tick, id: string) {
    t.answered ==> forall x | x in t.alerts :: x.alertId != id
  }

  lemma {:induction false} OmittedStaysOut(st: Polling, overlap: int, ticks: seq<Tick>, k: nat, m: nat, id: string)
    requires k < m <= |ticks| && forall i :: k < i < m ==> Omits(ticks[i], id)
    requires !HasKey(Run(st, overlap, ticks[..k + 1]).db.rows, (AlphaSense, id))
    ensures !HasKey(Run(st, overlap, ticks[..m]).db.rows, (AlphaSense, id))
    decreases m
  {
    if m > k + 1 {
      OmittedStaysOut(st, overlap, ticks, k, m - 1, id);
      assert ticks[..m][..m - 1] == ticks[..m - 1] && Omits(ticks[m - 1], id);
      UnlistedStaysOut(Run(st, overlap, ticks[..m - 1]), overlap, ticks[m - 1], id);
    }
  }

  /** An event that is not stored when the next window has moved past it is never stored. */
  lemma LostForGood(st: Polling, overlap: int, ticks: seq<Tick>, k: nat, m: nat, a: WireAlert)
    requires Orderly(ticks) && ListsOnlyLater(st, overlap, ticks, a)
    requires k < m <= |ticks| && Succeeds(ticks[k]) && Query(ticks[k].start, overlap) >= a.confirmed.value
    requires !HasKey(Run(st, overlap, ticks[..k + 1]).db.rows, (AlphaSense, a.alertId))
    ensures !HasKey(Run(st, overlap, ticks[..m]).db.rows, (AlphaSense, a.alertId))
  {
    forall i | k < i < m ensures Omits(ticks[i], a.alertId) {
      NotListedAgain(st, overlap, ticks, k, i, a);
    }
    OmittedStaysOut(st, overlap, ticks, k, m, a.alertId);
  }

  /** The next successful fetch after tick `k` asks about the instant that tick left behind. */
  lemma NextSuccessAsks(st: Polling, overlap: int, ticks: seq<Tick>, k: nat, j: nat)
    requires k < j < |ticks| && Succeeds(ticks[k])
    requires forall i :: k < i < j ==> !Succeeds(ticks[i])
    ensures Asked(st, overlap, ticks, j) == Query(ticks[k].start, overlap)
  {
    var last := WatermarkIsLastSuccess(st, overlap, ticks[..j]);
    AskedIsQuery(st, overlap, ticks, j);
    assert ticks[..j][k] == ticks[k] && (last >= 0 ==> ticks[..j][last] == ticks[last]);
    assert last == k;
  }

  /** An event still inside the next window is stored by the next successful fetch, if the
      database does not fail again. */
  lemma StoredByNextSuccess(
      st: Polling, overlap: int, ticks: seq<Tick>, k: nat, j: nat, a: WireAlert, visibleAt: int)
    requires Orderly(ticks) && Lists(st, overlap, ticks, a, visibleAt)
    requires k < j < |ticks| && Succeeds(ticks[k]) && Succeeds(ticks[j]) && visibleAt <= ticks[j].listedAt
    requires forall i :: k < i < j ==> !Succeeds(ticks[i])
    requires Query(ticks[k].start, overlap) < a.confirmed.value
    requires Sound(st.db) && (forall t :: t in ticks ==> Fresh(t)) && Calm(ticks[j]) && a.confirmed.value != 0
    ensures HasKey(Run(st, overlap, ticks[..j + 1]).db.rows, (AlphaSense, a.alertId))
  {
    NextSuccessAsks(st, overlap, ticks, k, j);
    ProblemIffMalformed(ticks[j].alerts, ticks[j].received);
    var ne := Normalize(a, ticks[j].received).value;
    NormalizedIsExact(ticks[j].alerts, ticks[j].received, ne);
    RunIsSound(st, overlap, ticks[..j], 0);
    CycleStores(Run(st, overlap, ticks[..j]), overlap, ticks[j], a, ne);
    assert ticks[..j + 1][..j] == ticks[..j];
  }

  /** A failed insert does not hold the watermark. When an alert was listed in a successful
      cycle and its event is not stored after it (so its insert failed), and the database
      does not fail in the next successful cycle: from then on the event is stored, once,
      iff it was confirmed after the failing cycle's start less the overlap. Otherwise it
      is lost, whatever happens later. */
  lemma FailedInsertIsRetriedIff(
      st: Polling, overlap: int, ticks: seq<Tick>, k: nat, j: nat, m: nat, a: WireAlert, visibleAt: int)
    requires Orderly(ticks) && Lists(st, overlap, ticks, a, visibleAt) && ListsOnlyLater(st, overlap, ticks, a)
    requires k < j < m <= |ticks| && Succeeds(ticks[k]) && Succeeds(ticks[j])
    requires forall i :: k < i < j ==> !Succeeds(ticks[i])
    requires Sound(st.db) && (forall t :: t in ticks ==> Fresh(t)) && Calm(ticks[j]) && a.confirmed.value != 0
    requires a in ticks[k].alerts && visibleAt <= ticks[k].listedAt
    requires !HasKey(Run(st, overlap, ticks[..k + 1]).db.rows, (AlphaSense, a.alertId))
    ensures StoredOnce(Run(st, overlap, ticks[..m]).db.rows, (AlphaSense, a.alertId)) <==>
            Query(ticks[k].start, overlap) < a.confirmed.value
  {
    if Query(ticks[k].start, overlap) < a.confirmed.value {
      StoredByNextSuccess(st, overlap, ticks, k, j, a, visibleAt);
      StaysStored(st, overlap, ticks, j + 1, m, (AlphaSense, a.alertId));
    } else {
      LostForGood(st, overlap, ticks, k, m, a);
      OnceMeansStored(Run(st, overlap, ticks[..m]).db.rows, (AlphaSense, a.alertId));
    }
  }

  lemma OnceMeansStored(rows: seq<HazardEvent>, key: (ProviderName, string))
    ensures StoredOnce(rows, key) ==> HasKey(rows, key)
  {
  }

  const LOST_ALERT := WireAlert("alert", "unit", "fire", 50.0, None, Some(100 * SECOND))

  function LosingTick(start: int, alerts: seq<WireAlert>, insert: Fault): Tick {
    Tick(start * SECOND, [], true, start * SECOND, alerts, start * SECOND, (i: nat) => Weather(NoFault, "id", insert))
  }

  lemma NormalizeOne(a: WireAlert, received: int, ne: NormalizedEvent)
    requires Normalize(a, received) == Ok(ne)
    ensures Normalized([a], received) == [ne] && FirstProblem([a], received).None?
  {
    assert [a][..0] == [];
  }

  lemma AcceptOnly(db: Db, ne: NormalizedEvent, weather: nat -> Weather)
    ensures AcceptAll(db, [ne], weather) == AcceptFromProvider(db, ne, weather(0)).1
  {
    assert [ne][..0] == [];
  }

  lemma LosingCycle(st: Polling)
    requires st.db.rows == []
    ensures var t := LosingTick(200, [LOST_ALERT], FailsBefore);
            var st' := Cycle(st, MINUTE, t);
            st'.since == 200 * SECOND && st'.db.rows == []
  {
    var t := LosingTick(200, [LOST_ALERT], FailsBefore);
    var ne := Normalize(LOST_ALERT, t.received).value;
    NormalizeOne(LOST_ALERT, t.received, ne);
    AcceptOnly(UpsertAll(st.db, []), ne, t.weather);
  }

  lemma IdleCycle(st: Polling)
    requires st.db.rows == []
    ensures Cycle(st, MINUTE, LosingTick(300, [], NoFault)).db.rows == []
  {
  }

  /** For instance: with the default overlap, an alert confirmed at 100 s is listed at
      200 s and its insert fails; the next question is about 140 s, and the event of that
      valid alert is never stored although nothing fails again. */
  lemma FailedInsertCanLose()
    ensures var ticks := [LosingTick(200, [LOST_ALERT], FailsBefore), LosingTick(300, [], NoFault)];
            var st := Polling(100 * SECOND, [], Db([], [], map[]));
            && Normalize(LOST_ALERT, 0).Ok? && Sound(st.db)
            && Asked(st, MINUTE, ticks, 0) < 100 * SECOND <= Asked(st, MINUTE, ticks, 1)
            && Run(st, MINUTE, ticks).db.rows == []
  {
    var first, second := LosingTick(200, [LOST_ALERT], FailsBefore), LosingTick(300, [], NoFault);
    var st := Polling(100 * SECOND, [], Db([], [], map[]));
    RunExtends(st, MINUTE, [], first);
    RunExtends(st, MINUTE, [first], second);
    assert [] + [first] == [first] && [first] + [second] == [first, second];
    LosingCycle(st);
    IdleCycle(Run(st, MINUTE, [first]));
    AskedIsQuery(st, MINUTE, [first, second], 0);
    AskedIsQuery(st, MINUTE, [first, second], 1);
    assert [first, second][..0] == [] && [first, second][..1] == [first];
  }

  lemma QueryIsMonotone(x: int, y: int, overlap: int)
    requires x <= y
    ensures Query(x, overlap) <= Query(y, overlap)
  {
  }
}

/** The phone's cloud reporter: a bounded queue that drops its oldest entry, drained by
    one worker that retries each item. */
module Outbox {
  import opened Wrappers

  datatype Item = Event(json: string) | Telemetry(json: string)

  /** How one HTTP exchange ended, and what the gateway makes of it. */
  datatype Exchange = Answered(code: int) | IoFailure | OtherFailure

  datatype GatewayResult = Accepted | TransientError | PermanentError

  function Classify(x: Exchange): GatewayResult {
    match x
    case Answered(code) =>
      if 200 <= code <= 299 then Accepted
      else if code == 429 then TransientError
      else if 400 <= code <= 499 then PermanentError
      else TransientError
    case IoFailure => TransientError
    case OtherFailure => PermanentError
  }

  datatype Settings = Settings(enabled: bool, maxAttempts: int, capacity: nat)

  /** How often an item is posted at most. The loop tests after posting, so never less
      than once. */
  function Limit(cfg: Settings, item: Item): nat {
    if item.Telemetry? then 2 else if cfg.maxAttempts < 1 then 1 else cfg.maxAttempts
  }

  /** What became of an item that has left the queue. */
  datatype Fate = Overflowed | InFlight | Delivered | Refused | GivenUp

  datatype Flight = Flight(serial: nat, attempt: nat)

  /** Items are known by their position in the order they were reported. */
  datatype Box = Box(
    queue: seq<Item>,
    closed: bool,
    current: Option<Flight>,
    reported: seq<Item>,
    fates: seq<Fate>,
    posts: seq<nat>)

  const EMPTY := Box([], false, None, [], [], [])

  datatype Action = Report(item: Item) | Take | Post(result: GatewayResult) | Close

  function TrySend(cfg: Settings, b: Box, item: Item): Box {
    if !cfg.enabled || b.closed then b
    else if |b.queue| < cfg.capacity || |b.queue| == 0 then
      b.(queue := b.queue + [item], reported := b.reported + [item])
    else
      b.(queue := b.queue[1..] + [item], reported := b.reported + [item], fates := b.fates + [Overflowed])
  }

  function Receive(b: Box): Box {
    if b.current.Some? || b.queue == [] then b
    else b.(queue := b.queue[1..], fates := b.fates + [InFlight], current := Some(Flight(|b.fates|, 0)))
  }

  function Settle(b: Box, serial: nat, fate: Fate): Box {
    if serial < |b.fates| then b.(current := None, fates := b.fates[serial := fate]) else b
  }

  function Posted(cfg: Settings, b: Box, result: GatewayResult): Box {
    if b.current.None? || b.current.value.serial >= |b.reported| then b
    else
      var f := b.current.value;
      var b' := b.(posts := b.posts + [f.serial]);
      match result
      case Accepted => Settle(b', f.serial, Delivered)
      case PermanentError => Settle(b', f.serial, Refused)
      case TransientError =>
        if f.attempt + 1 >= Limit(cfg, b.reported[f.serial]) then Settle(b', f.serial, GivenUp)
        else b'.(current := Some(f.(attempt := f.attempt + 1)))
  }

  function Step(cfg: Settings, b: Box, a: Action): Box {
    match a
    case Report(item) => TrySend(cfg, b, item)
    case Take => Receive(b)
    case Post(result) => Posted(cfg, b, result)
    case Close => b.(closed := true)
  }

  function Run(cfg: Settings, b: Box, actions: seq<Action>): Box
    decreases |actions|
  {
    if actions == [] then b else Run(cfg, Step(cfg, b, actions[0]), actions[1..])
  }

  // ---- What every run keeps ------------------------------------------------------------------

  function Room(cfg: Settings): nat {
    if cfg.capacity < 1 then 1 else cfg.capacity
  }

  /** The queue is the most recent items that have not left it, no more than it has room
      for. */
  ghost predicate Suffix(cfg: Settings, b: Box) {
    && |b.reported| == |b.fates| + |b.queue| && b.queue == b.reported[|b.fates|..]
    && |b.queue| <= Room(cfg)
  }

  /** An item overflowed only when a full queue of fresher ones had been reported after
      it, and is in flight only while the worker holds it. */
  ghost predicate FateFits(cfg: Settings, b: Box, k: nat)
    requires k < |b.fates|
  {
    && (b.fates[k] == InFlight <==> b.current.Some? && b.current.value.serial == k)
    && (b.fates[k] == Overflowed ==> k + Room(cfg) < |b.reported|)
  }

  ghost predicate Accounted(cfg: Settings, b: Box) {
    && Suffix(cfg, b)
    && (forall k :: 0 <= k < |b.fates| ==> FateFits(cfg, b, k))
    && (b.current.Some? ==>
          && b.current.value.serial < |b.fates|
          && b.current.value.attempt < Limit(cfg, b.reported[b.current.value.serial]))
  }

  lemma TrySendKeepsSuffix(cfg: Settings, b: Box, item: Item)
    requires Suffix(cfg, b)
    ensures Suffix(cfg, TrySend(cfg, b, item))
  {
    var b' := TrySend(cfg, b, item);
    if b'.reported != b.reported {
      assert b'.reported[|b.fates|..] == b.queue + [item];
      if b'.fates != b.fates {
        assert b'.reported[|b'.fates|..] == b'.reported[|b.fates|..][1..];
        assert (b.queue + [item])[1..] == b.queue[1..] + [item];
      }
    }
  }

  lemma ReceiveKeepsSuffix(cfg: Settings, b: Box)
    requires Suffix(cfg, b)
    ensures Suffix(cfg, Receive(b))
  {
    if b.current.None? && b.queue != [] {
      assert b.reported[|b.fates| + 1..] == b.reported[|b.fates|..][1..];
    }
  }

  lemma StepKeepsSuffix(cfg: Settings, b: Box, a: Action)
    requires Suffix(cfg, b)
    ensures Suffix(cfg, Step(cfg, b, a))
  {
    match a
    case Report(item) => TrySendKeepsSuffix(cfg, b, item);
    case Take => ReceiveKeepsSuffix(cfg, b);
    case _ =>
  }

  lemma StepAccounts(cfg: Settings, b: Box, a: Action)
    requires Accounted(cfg, b)
    ensures Accounted(cfg, Step(cfg, b, a))
  {
    var b' := Step(cfg, b, a);
    StepKeepsSuffix(cfg, b, a);
    forall k | 0 <= k < |b'.fates| ensures FateFits(cfg, b', k) {
      if k < |b.fates| {
        assert FateFits(cfg, b, k);
      }
    }
  }

  /** How often each item has been posted: an overflowed or waiting one never, a given-up
      one to its limit, any other at least once and within its limit. */
  ghost predicate CountFits(cfg: Settings, b: Box, k: nat)
    requires k < |b.reported|
  {
    var posts := multiset(b.posts)[k];
    if k >= |b.fates| then posts == 0
    else
      match b.fates[k]
      case Overflowed => posts == 0
      case InFlight => b.current.Some? && posts == b.current.value.attempt
      case GivenUp => posts == Limit(cfg, b.reported[k])
      case _ => 1 <= posts <= Limit(cfg, b.reported[k])
  }

  ghost predicate Counted(cfg: Settings, b: Box) {
    && (forall k :: 0 <= k < |b.reported| ==> CountFits(cfg, b, k))
    && (forall p :: p in b.posts ==> p < |b.fates|)
  }

  lemma PostCounts(cfg: Settings, b: Box, result: GatewayResult, k: nat)
    requires Accounted(cfg, b) && k < |b.reported| && CountFits(cfg, b, k)
    requires k < |b.fates| ==> FateFits(cfg, b, k)
    ensures k < |Posted(cfg, b, result).reported| && CountFits(cfg, Posted(cfg, b, result), k)
  {
    if b.current.Some? {
      var f := b.current.value;
      assert FateFits(cfg, b, f.serial);
      assert multiset(b.posts + [f.serial]) == multiset(b.posts) + multiset{f.serial};
    }
  }

  lemma ReportCounts(cfg: Settings, b: Box, item: Item, k: nat)
    requires Accounted(cfg, b) && Counted(cfg, b) && k < |TrySend(cfg, b, item).reported|
    ensures CountFits(cfg, TrySend(cfg, b, item), k)
  {
    if k < |b.reported| {
      assert CountFits(cfg, b, k);
    } else {
      assert k !in b.posts;
    }
  }

  lemma StepCounts(cfg: Settings, b: Box, a: Action)
    requires Accounted(cfg, b) && Counted(cfg, b)
    ensures Counted(cfg, Step(cfg, b, a))
  {
    var b' := Step(cfg, b, a);
    forall k | 0 <= k < |b'.reported| ensures CountFits(cfg, b', k) {
      match a
      case Report(item) => ReportCounts(cfg, b, item, k);
      case Post(result) =>
        assert CountFits(cfg, b, k);
        PostCounts(cfg, b, result, k);
      case _ => assert CountFits(cfg, b, k);
    }
  }

  /** Posts go out in the order the items were reported. */
  ghost predicate InOrder(b: Box) {
    && (forall i, j :: 0 <= i <= j < |b.posts| ==> b.posts[i] <= b.posts[j])
    && (b.current.Some? ==> forall i :: 0 <= i < |b.posts| ==> b.posts[i] <= b.current.value.serial)
  }

  lemma StepKeepsOrder(cfg: Settings, b: Box, a: Action)
    requires Counted(cfg, b) && InOrder(b)
    ensures InOrder(Step(cfg, b, a))
  {
    if a == Take {
      assert forall i :: 0 <= i < |b.posts| ==> b.posts[i] in b.posts;
    }
  }

  ghost predicate Invariant(cfg: Settings, b: Box) {
    Accounted(cfg, b) && Counted(cfg, b) && InOrder(b)
  }

  lemma StepKeepsInvariant(cfg: Settings, b: Box, a: Action)
    requires Invariant(cfg, b)
    ensures Invariant(cfg, Step(cfg, b, a))
  {
    StepAccounts(cfg, b, a);
    StepCounts(cfg, b, a);
    StepKeepsOrder(cfg, b, a);
  }

  lemma PostsWithinLimit(cfg: Settings, b: Box, k: nat)
    requires Invariant(cfg, b) && k < |b.reported|
    ensures multiset(b.posts)[k] <= Limit(cfg, b.reported[k])
  {
    assert CountFits(cfg, b, k);
    assert k < |b.fates| ==> FateFits(cfg, b, k);
  }

  /** Every run from the start keeps all of it. */
  lemma {:induction false} RunsKeepInvariant(cfg: Settings, b: Box, actions: seq<Action>)
    requires Invariant(cfg, b)
    ensures Invariant(cfg, Run(cfg, b, actions))
    decreases |actions|
  {
    if actions != [] {
      StepKeepsInvariant(cfg, b, actions[0]);
      RunsKeepInvariant(cfg, Step(cfg, b, actions[0]), actions[1..]);
    }
  }

  // ---- Conservation ----------------------------------------------------------------------------

  function Tally(fates: seq<Fate>, f: Fate): nat {
    if fates == [] then 0
    else Tally(fates[..|fates| - 1], f) + if fates[|fates| - 1] == f then 1 else 0
  }

  lemma {:induction false} EveryFateIsTallied(fates: seq<Fate>)
    ensures Tally(fates, Delivered) + Tally(fates, Refused) + Tally(fates, GivenUp)
            + Tally(fates, Overflowed) + Tally(fates, InFlight) == |fates|
  {
    if fates != [] {
      EveryFateIsTallied(fates[..|fates| - 1]);
    }
  }

  lemma {:induction false} OneInFlight(fates: seq<Fate>, current: int)
    requires forall k :: 0 <= k < |fates| ==> (fates[k] == InFlight <==> k == current)
    ensures Tally(fates, InFlight) == if 0 <= current < |fates| then 1 else 0
  {
    if fates != [] {
      OneInFlight(fates[..|fates| - 1], current);
    }
  }

  /** In every run: what was reported is what was accepted, permanently refused, given up
      on, dropped by overflow, is in flight, or still queued. */
  lemma Conservation(cfg: Settings, actions: seq<Action>)
    ensures var b := Run(cfg, EMPTY, actions);
            |b.reported| == Tally(b.fates, Delivered) + Tally(b.fates, Refused) + Tally(b.fates, GivenUp)
                          + Tally(b.fates, Overflowed) + (if b.current.Some? then 1 else 0) + |b.queue|
  {
    var b := Run(cfg, EMPTY, actions);
    RunsKeepInvariant(cfg, EMPTY, actions);
    EveryFateIsTallied(b.fates);
    var current := if b.current.Some? then b.current.value.serial else -1;
    forall k | 0 <= k < |b.fates| ensures b.fates[k] == InFlight <==> k == current {
      assert FateFits(cfg, b, k);
    }
    OneInFlight(b.fates, current);
  }

  // ---- The reporter --------------------------------------------------------------------------

  /** What the worker meets: the exchange of each post, and the items the app reports
      while it is going on (waiting included), by serial number of the post. */
  datatype World = World(exchange: nat -> Exchange, arrivals: nat -> seq<Item>)

  function Reports(items: seq<Item>): seq<Action> {
    if items == [] then [] else [Report(items[0])] + Reports(items[1..])
  }

  /** One post with the reports that arrive during it. */
  function Attempted(cfg: Settings, b: Box, w: World, n: nat): Box {
    Posted(cfg, Run(cfg, b, Reports(w.arrivals(n))), Classify(w.exchange(n)))
  }

  /** Delivering the item in flight from the n-th post on, with so many attempts left; and
      the number of the next post. */
  function Delivery(cfg: Settings, b: Box, w: World, n: nat, left: nat): (Box, nat)
    requires left > 0
    decreases left
  {
    var b' := Attempted(cfg, b, w, n);
    if Classify(w.exchange(n)) == TransientError && left > 1 then Delivery(cfg, b', w, n + 1, left - 1)
    else (b', n + 1)
  }

  /** The worker: takes the oldest item and delivers it, so many times or until the queue
      is empty. */
  function Drained(cfg: Settings, b: Box, w: World, n: nat, rounds: nat): (Box, nat)
    decreases rounds
  {
    if rounds == 0 || b.queue == [] then (b, n)
    else
      var (b', n') := Delivery(cfg, Receive(b), w, n, Limit(cfg, b.queue[0]));
      Drained(cfg, b', w, n', rounds - 1)
  }

  lemma {:induction false} RunAppends(cfg: Settings, b: Box, first: seq<Action>, second: seq<Action>)
    ensures Run(cfg, b, first + second) == Run(cfg, Run(cfg, b, first), second)
    decreases |first|
  {
    if first == [] {
      assert first + second == second;
    } else {
      assert (first + second)[1..] == first[1..] + second;
      RunAppends(cfg, Step(cfg, b, first[0]), first[1..], second);
    }
  }

  /** A delivery is a run: reports, and at least one post but no more than were left. */
  lemma {:induction false} DeliveryIsRun(cfg: Settings, b: Box, w: World, n: nat, left: nat)
    returns (actions: seq<Action>)
    requires left > 0
    ensures var (b', n') := Delivery(cfg, b, w, n, left);
            Run(cfg, b, actions) == b' && n < n' <= n + left
    decreases left
  {
    var post := Post(Classify(w.exchange(n)));
    var reports := Reports(w.arrivals(n));
    actions := reports + [post];
    RunAppends(cfg, b, reports, [post]);
    assert [post][1..] == [];
    assert Run(cfg, Run(cfg, b, reports), [post]) == Run(cfg, Attempted(cfg, b, w, n), []);
    if Classify(w.exchange(n)) == TransientError && left > 1 {
      var later := DeliveryIsRun(cfg, Attempted(cfg, b, w, n), w, n + 1, left - 1);
      RunAppends(cfg, b, actions, later);
      actions := actions + later;
    }
  }

  lemma DeliveryKeepsInvariant(cfg: Settings, b: Box, w: World, n: nat)
    requires Invariant(cfg, b) && b.queue != []
    ensures Invariant(cfg, Delivery(cfg, Receive(b), w, n, Limit(cfg, b.queue[0])).0)
  {
    var actions := DeliveryIsRun(cfg, Receive(b), w, n, Limit(cfg, b.queue[0]));
    StepKeepsInvariant(cfg, b, Action.Take);
    RunsKeepInvariant(cfg, Receive(b), actions);
  }

  /** The worker holds an item on its so-manieth attempt. */
  predicate Holds(b: Box, f: Flight, item: Item) {
    && b.current == Some(f) && f.serial < |b.fates| <= |b.reported| && b.reported[f.serial] == item
  }

  /** Reports never touch the item in flight. */
  lemma {:induction false} ReportsKeepFlight(cfg: Settings, b: Box, items: seq<Item>, f: Flight, item: Item)
    requires Holds(b, f, item)
    ensures Holds(Run(cfg, b, Reports(items)), f, item)
    decreases |items|
  {
    if items != [] {
      assert Reports(items)[1..] == Reports(items[1..]);
      ReportsKeepFlight(cfg, Step(cfg, b, Report(items[0])), items[1..], f, item);
    }
  }

  // ---- What a delivery comes to ----------------------------------------------------------------

  /** The connector took it. */
  predicate Took(x: Exchange) {
    x.Answered? && 200 <= x.code <= 299
  }

  /** Sending it again would not help. */
  predicate Final(x: Exchange) {
    x == OtherFailure || (x.Answered? && 400 <= x.code <= 499 && x.code != 429)
  }

  /** The posts from `n` up to `next` are one delivery: it went on exactly until the item was
      taken, refused for good, or had been posted `most` times. */
  predicate OneDelivery(w: World, n: nat, next: nat, most: int) {
    && n < next <= n + most
    && (forall i :: n <= i < next - 1 ==> !Took(w.exchange(i)) && !Final(w.exchange(i)))
    && (Took(w.exchange(next - 1)) || Final(w.exchange(next - 1)) || next == n + most)
  }

  /** What becomes of an item by the last of its posts. */
  predicate EndsAs(b: Box, serial: nat, last: Exchange) {
    && b.current == None && serial < |b.fates|
    && b.fates[serial] == (if Took(last) then Delivered else if Final(last) then Refused else GivenUp)
  }

  lemma AttemptOutcome(cfg: Settings, b: Box, w: World, n: nat, f: Flight, item: Item, left: nat)
    requires Holds(b, f, item) && left > 0
    requires f.attempt + left == if item.Telemetry? then 2 else if cfg.maxAttempts < 1 then 1 else cfg.maxAttempts
    ensures var b' := Attempted(cfg, b, w, n);
            if Took(w.exchange(n)) || Final(w.exchange(n)) || left == 1 then EndsAs(b', f.serial, w.exchange(n))
            else Holds(b', f.(attempt := f.attempt + 1), item)
  {
    ReportsKeepFlight(cfg, b, w.arrivals(n), f, item);
  }

  lemma OneMorePost(w: World, n: nat, next: nat, most: nat)
    requires most > 1 && !Took(w.exchange(n)) && !Final(w.exchange(n)) && OneDelivery(w, n + 1, next, most - 1)
    ensures OneDelivery(w, n, next, most)
  {
  }

  /** A delivery goes on while the network or the connector fails in passing, five times by
      default for an event and twice for telemetry, and ends by what its last post met. */
  lemma {:induction false} DeliveryOutcome(
      cfg: Settings, b: Box, w: World, n: nat, f: Flight, item: Item, left: nat)
    requires Holds(b, f, item) && left > 0
    requires f.attempt + left == if item.Telemetry? then 2 else if cfg.maxAttempts < 1 then 1 else cfg.maxAttempts
    ensures var (b', next) := Delivery(cfg, b, w, n, left);
            OneDelivery(w, n, next, left) && EndsAs(b', f.serial, w.exchange(next - 1))
    decreases left
  {
    AttemptOutcome(cfg, b, w, n, f, item, left);
    if !Took(w.exchange(n)) && !Final(w.exchange(n)) && left > 1 {
      DeliveryOutcome(cfg, Attempted(cfg, b, w, n), w, n + 1, f.(attempt := f.attempt + 1), item, left - 1);
      OneMorePost(w, n, Delivery(cfg, Attempted(cfg, b, w, n), w, n + 1, left - 1).1, left);
    }
  }

  /** What one report does: nothing once the reporter is closed or while it is disabled;
      otherwise the item joins the end of the queue, at the price of the oldest one if as
      many wait as there is room for. */
  lemma ReportOutcome(cfg: Settings, b: Box, item: Item)
    ensures var b' := TrySend(cfg, b, item);
            if !cfg.enabled || b.closed then b' == b
            else
              && b'.reported == b.reported + [item] && b'.current == b.current && b'.posts == b.posts && !b'.closed
              && (if 1 <= cfg.capacity <= |b.queue| || (cfg.capacity == 0 && b.queue != [])
                  then b'.queue == b.queue[1..] + [item] && b'.fates == b.fates + [Overflowed]
                  else b'.queue == b.queue + [item] && b'.fates == b.fates)
  {
  }

  lemma QuietDelivery(cfg: Settings, b: Box, w: World, n: nat, left: nat)
    requires left > 0 && forall i :: w.arrivals(i) == []
    ensures var b' := Delivery(cfg, b, w, n, left).0;
            b'.queue == b.queue && b'.reported == b.reported && |b'.fates| == |b.fates|
    decreases left
  {
    assert Reports([]) == [];
    if Classify(w.exchange(n)) == TransientError && left > 1 {
      QuietDelivery(cfg, Attempted(cfg, b, w, n), w, n + 1, left - 1);
    }
  }

  /** A worker that is given a round for each waiting item, while nothing more is reported,
      empties the queue: every item's fate is settled. */
  lemma {:induction false} DrainEmptiesQueue(cfg: Settings, b: Box, w: World, n: nat, rounds: nat)
    requires Invariant(cfg, b) && b.current == None && rounds >= |b.queue| && forall i :: w.arrivals(i) == []
    ensures var b' := Drained(cfg, b, w, n, rounds).0;
            && b'.queue == [] && b'.current == None && b'.reported == b.reported && |b'.fates| == |b.reported|
            && Invariant(cfg, b')
    decreases rounds
  {
    if b.queue != [] {
      var item, f := b.queue[0], Flight(|b.fates|, 0);
      DeliveryKeepsInvariant(cfg, b, w, n);
      QuietDelivery(cfg, Receive(b), w, n, Limit(cfg, item));
      DeliveryOutcome(cfg, Receive(b), w, n, f, item, Limit(cfg, item));
      var (b', n') := Delivery(cfg, Receive(b), w, n, Limit(cfg, item));
      DrainEmptiesQueue(cfg, b', w, n', rounds - 1);
    }
  }

  class Reporter {
    const cfg: Settings
    const world: World
    var queue: seq<Item>
    var closed: bool
    var postCount: nat
    ghost var current: Option<Flight>
    ghost var reported: seq<Item>
    ghost var fates: seq<Fate>
    ghost var posts: seq<nat>

    ghost function Snapshot(): Box
      reads this
    {
      Box(queue, closed, current, reported, fates, posts)
    }

    constructor (cfg: Settings, world: World)
      ensures this.cfg == cfg && this.world == world && Snapshot() == EMPTY && postCount == 0
    {
      this.cfg, this.world := cfg, world;
      queue, closed, postCount, current, reported, fates, posts := [], false, 0, None, [], [], [];
    }

    /** Both report methods end here; the queue is full at its capacity (at least one). */
    method ReportItem(item: Item)
      modifies this
      ensures Snapshot() == TrySend(cfg, old(Snapshot()), item) && postCount == old(postCount)
    {
      if !cfg.enabled || closed {
        return;
      }
      if |queue| >= cfg.capacity && |queue| > 0 {
        queue := queue[1..];
        fates := fates + [Overflowed];
      }
      queue := queue + [item];
      reported := reported + [item];
    }

    method ReportAll(items: seq<Item>)
      modifies this
      ensures Snapshot() == Run(cfg, old(Snapshot()), Reports(items)) && postCount == old(postCount)
    {
      for i := 0 to |items|
        invariant Run(cfg, Snapshot(), Reports(items[i..])) == Run(cfg, old(Snapshot()), Reports(items))
        invariant postCount == old(postCount)
      {
        assert items[i..][1..] == items[i + 1..];
        ReportItem(items[i]);
        assert ([Report(items[i])] + Reports(items[i + 1..]))[1..] == Reports(items[i + 1..]);
      }
    }

    /** One post, and what the retry loop does about its result. */
    method PostOnce(item: Item, attempt: nat) returns (done: bool)
      requires current.Some? && Holds(Snapshot(), Flight(current.value.serial, attempt), item)
      modifies this
      ensures postCount == old(postCount) + 1
      ensures Snapshot() == Posted(cfg, old(Snapshot()), Classify(world.exchange(old(postCount))))
      ensures done <==> Classify(world.exchange(old(postCount))) != TransientError || attempt + 1 >= Limit(cfg, item)
      ensures done ==> current == None
      ensures !done ==> Holds(Snapshot(), Flight(old(current.value.serial), attempt + 1), item)
    {
      var result := Classify(world.exchange(postCount));
      postCount := postCount + 1;
      posts := posts + [current.value.serial];
      if result != TransientError || attempt + 1 >= Limit(cfg, item) {
        fates := fates[current.value.serial :=
          if result == Accepted then Delivered else if result == PermanentError then Refused else GivenUp];
        current := None;
        return true;
      }
      current := Some(current.value.(attempt := attempt + 1));
      return false;
    }

    /** What happens around one post: the app goes on reporting. */
    method AttemptOnce(item: Item, attempt: nat) returns (done: bool)
      requires current.Some? && Holds(Snapshot(), Flight(current.value.serial, attempt), item)
      modifies this
      ensures postCount == old(postCount) + 1
      ensures Snapshot() == Attempted(cfg, old(Snapshot()), world, old(postCount))
      ensures done <==> Classify(world.exchange(old(postCount))) != TransientError || attempt + 1 >= Limit(cfg, item)
      ensures done ==> current == None
      ensures !done ==> Holds(Snapshot(), Flight(old(current.value.serial), attempt + 1), item)
    {
      ReportsKeepFlight(cfg, Snapshot(), world.arrivals(postCount), current.value, item);
      ReportAll(world.arrivals(postCount));
      done := PostOnce(item, attempt);
    }

    /** Delivers one item just received: what that comes to, and its effect on the box. */
    method DeliverItem(item: Item)
      requires current.Some? && Holds(Snapshot(), Flight(current.value.serial, 0), item)
      modifies this
      ensures current == None
      ensures (Snapshot(), postCount) == Delivery(cfg, old(Snapshot()), world, old(postCount), Limit(cfg, item))
      ensures OneDelivery(world, old(postCount), postCount,
                          if item.Telemetry? then 2 else if cfg.maxAttempts < 1 then 1 else cfg.maxAttempts)
      ensures EndsAs(Snapshot(), old(current.value.serial), world.exchange(postCount - 1))
    {
      DeliveryOutcome(cfg, Snapshot(), world, postCount, current.value, item, Limit(cfg, item));
      PostUntilSettled(item);
    }

    /** The retry loop. */
    method PostUntilSettled(item: Item)
      requires current.Some? && Holds(Snapshot(), Flight(current.value.serial, 0), item)
      modifies this
      ensures current == None
      ensures (Snapshot(), postCount) == Delivery(cfg, old(Snapshot()), world, old(postCount), Limit(cfg, item))
    {
      var attempt := 0;
      while true
        invariant attempt < Limit(cfg, item)
        invariant current.Some? && Holds(Snapshot(), Flight(current.value.serial, attempt), item)
        invariant Delivery(cfg, Snapshot(), world, postCount, Limit(cfg, item) - attempt)
               == Delivery(cfg, old(Snapshot()), world, old(postCount), Limit(cfg, item))
        decreases Limit(cfg, item) - attempt
      {
        var done := AttemptOnce(item, attempt);
        if done {
          return;
        }
        attempt := attempt + 1;
      }
    }

    /** Takes the oldest item and delivers it. */
    method DeliverNext()
      requires Invariant(cfg, Snapshot()) && current == None && queue != []
      modifies this
      ensures (Snapshot(), postCount)
           == Delivery(cfg, Receive(old(Snapshot())), world, old(postCount), Limit(cfg, old(queue[0])))
      ensures current == None && Invariant(cfg, Snapshot())
    {
      DeliveryKeepsInvariant(cfg, Snapshot(), world, postCount);
      var item := queue[0];
      queue := queue[1..];
      current := Some(Flight(|fates|, 0));
      fates := fates + [InFlight];
      DeliverItem(item);
    }

    /** The worker, until it is cancelled (here after a number of items) or finds nothing. */
    method Drain(rounds: nat)
      requires Invariant(cfg, Snapshot()) && current == None
      modifies this
      ensures (Snapshot(), postCount) == Drained(cfg, old(Snapshot()), world, old(postCount), rounds)
      ensures Invariant(cfg, Snapshot()) && current == None
    {
      for i := 0 to rounds
        invariant Invariant(cfg, Snapshot()) && current == None
        invariant Drained(cfg, Snapshot(), world, postCount, rounds - i)
               == Drained(cfg, old(Snapshot()), world, old(postCount), rounds)
      {
        if queue == [] {
          return;
        }
        DeliverNext();
      }
    }
  }
}

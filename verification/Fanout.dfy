/** The live feed of accepted events: one small buffer per subscriber, never blocking the
    pipeline. */
module Fanout {
  import opened Domain

  const BUFFER: nat := 16

  /** A subscriber's channel, with everything offered to it and taken from it so far. */
  datatype Channel = Channel(
    open: bool,
    buffer: seq<HazardEvent>,
    received: seq<HazardEvent>,
    offered: seq<HazardEvent>,
    dropped: nat)

  const FRESH := Channel(true, [], [], [], 0)

  /** A send that would block is dropped instead; a closed channel is no subscriber. */
  function Offer(c: Channel, e: HazardEvent): Channel {
    if !c.open then c
    else if |c.buffer| < BUFFER then c.(buffer := c.buffer + [e], offered := c.offered + [e])
    else c.(offered := c.offered + [e], dropped := c.dropped + 1)
  }

  function Take(c: Channel): Channel {
    if c.buffer == [] then c else c.(buffer := c.buffer[1..], received := c.received + [c.buffer[0]])
  }

  datatype Step = Subscribe | Cancel(id: nat) | Publish(e: HazardEvent) | Receive(id: nat)

  function OfferAll(subs: seq<Channel>, e: HazardEvent): seq<Channel> {
    seq(|subs|, i requires 0 <= i < |subs| => Offer(subs[i], e))
  }

  function Next(subs: seq<Channel>, step: Step): seq<Channel> {
    match step
    case Subscribe => subs + [FRESH]
    case Cancel(id) => if id < |subs| then subs[id := subs[id].(open := false)] else subs
    case Publish(e) => OfferAll(subs, e)
    case Receive(id) => if id < |subs| then subs[id := Take(subs[id])] else subs
  }

  function Run(subs: seq<Channel>, steps: seq<Step>): seq<Channel>
    decreases |steps|
  {
    if steps == [] then subs else Run(Next(subs, steps[0]), steps[1..])
  }

  class Hub {
    var subs: seq<Channel>

    constructor ()
      ensures subs == []
    {
      subs := [];
    }

    method SubscribeNew() returns (id: nat)
      modifies this
      ensures subs == Next(old(subs), Subscribe) && id == |old(subs)|
    {
      id := |subs|;
      subs := subs + [FRESH];
    }

    method CancelOne(id: nat)
      requires id < |subs|
      modifies this
      ensures subs == Next(old(subs), Cancel(id))
    {
      subs := subs[id := subs[id].(open := false)];
    }

    /** Offers to the channels one after the other. */
    method PublishAll(e: HazardEvent)
      modifies this
      ensures subs == Next(old(subs), Publish(e))
    {
      for i := 0 to |subs|
        invariant |subs| == |old(subs)|
        invariant forall j :: 0 <= j < |subs| ==> subs[j] == if j < i then Offer(old(subs)[j], e) else old(subs)[j]
      {
        if subs[i].open {
          if |subs[i].buffer| < BUFFER {
            subs := subs[i := subs[i].(buffer := subs[i].buffer + [e], offered := subs[i].offered + [e])];
          } else {
            subs := subs[i := subs[i].(offered := subs[i].offered + [e], dropped := subs[i].dropped + 1)];
          }
        }
      }
    }
  }

  /** `a` is `b` with some elements left out. */
  ghost predicate Thinned(a: seq<HazardEvent>, b: seq<HazardEvent>) {
    a == [] ||
    (b != [] &&
     (Thinned(a, b[..|b| - 1]) ||
      (a[|a| - 1] == b[|b| - 1] && Thinned(a[..|a| - 1], b[..|b| - 1]))))
  }

  lemma ThinnedExtends(a: seq<HazardEvent>, b: seq<HazardEvent>, e: HazardEvent)
    requires Thinned(a, b)
    ensures Thinned(a, b + [e]) && Thinned(a + [e], b + [e])
  {
    assert (b + [e])[..|b|] == b && (a + [e])[..|a|] == a;
  }

  /** What a channel has passed on and still holds is, in order, what it was offered less
      what was dropped; it never holds more than its buffer. */
  ghost predicate Faithful(c: Channel) {
    && |c.buffer| <= BUFFER
    && Thinned(c.received + c.buffer, c.offered)
    && |c.offered| == |c.received| + |c.buffer| + c.dropped
    && (c.dropped == 0 ==> c.received + c.buffer == c.offered)
  }

  lemma OfferKeepsFaith(c: Channel, e: HazardEvent)
    requires Faithful(c)
    ensures Faithful(Offer(c, e))
  {
    ThinnedExtends(c.received + c.buffer, c.offered, e);
    assert c.received + (c.buffer + [e]) == c.received + c.buffer + [e];
  }

  lemma TakeKeepsFaith(c: Channel)
    requires Faithful(c)
    ensures Faithful(Take(c))
  {
    if c.buffer != [] {
      assert c.received + [c.buffer[0]] + c.buffer[1..] == c.received + c.buffer;
    }
  }

  lemma NextKeepsFaith(subs: seq<Channel>, step: Step)
    requires forall c :: c in subs ==> Faithful(c)
    ensures forall c :: c in Next(subs, step) ==> Faithful(c)
  {
    forall i | 0 <= i < |Next(subs, step)| ensures Faithful(Next(subs, step)[i]) {
      if i < |subs| {
        assert Faithful(subs[i]);
        match step
        case Publish(e) => OfferKeepsFaith(subs[i], e);
        case Receive(id) => TakeKeepsFaith(subs[i]);
        case _ =>
      }
    }
  }

  lemma {:induction false} RunsKeepFaith(subs: seq<Channel>, steps: seq<Step>)
    requires forall c :: c in subs ==> Faithful(c)
    ensures forall c :: c in Run(subs, steps) ==> Faithful(c)
    decreases |steps|
  {
    if steps != [] {
      NextKeepsFaith(subs, steps[0]);
      RunsKeepFaith(Next(subs, steps[0]), steps[1..]);
    }
  }

  /** What is published while the subscriber `id` is subscribed, when there are `n` channels
      at first: the subscription that makes the channel `id` opens it, its cancellation
      closes it. */
  function Due(n: nat, open: bool, id: nat, steps: seq<Step>): seq<HazardEvent>
    decreases |steps|
  {
    if steps == [] then []
    else
      match steps[0]
      case Subscribe => Due(n + 1, open || n == id, id, steps[1..])
      case Cancel(x) => Due(n, open && x != id, id, steps[1..])
      case Publish(e) => (if open then [e] else []) + Due(n, open, id, steps[1..])
      case Receive(_) => Due(n, open, id, steps[1..])
  }

  function OfferedTo(subs: seq<Channel>, id: nat): seq<HazardEvent> {
    if id < |subs| then subs[id].offered else []
  }

  predicate OpenAt(subs: seq<Channel>, id: nat) {
    id < |subs| && subs[id].open
  }

  /** A channel is offered exactly what is published while it is subscribed. */
  lemma {:induction false} OffersAreDue(subs: seq<Channel>, id: nat, steps: seq<Step>)
    ensures OfferedTo(Run(subs, steps), id) == OfferedTo(subs, id) + Due(|subs|, OpenAt(subs, id), id, steps)
    decreases |steps|
  {
    if steps != [] {
      OffersAreDue(Next(subs, steps[0]), id, steps[1..]);
      if steps[0].Publish? && OpenAt(subs, id) {
        Append(OfferedTo(subs, id), steps[0].e, Due(|subs|, true, id, steps[1..]));
      }
    }
  }

  lemma Append(a: seq<HazardEvent>, e: HazardEvent, b: seq<HazardEvent>)
    ensures (a + [e]) + b == a + ([e] + b)
  {
  }

  /** In every run what a subscriber has received and what waits for it is, in order, what
      was published while it was subscribed less what was dropped. */
  lemma FeedsAreFaithful(id: nat, steps: seq<Step>)
    requires id < |Run([], steps)|
    ensures var c, due := Run([], steps)[id], Due(0, false, id, steps);
            && |c.buffer| <= BUFFER
            && Thinned(c.received + c.buffer, due)
            && |due| == |c.received| + |c.buffer| + c.dropped
            && (c.dropped == 0 ==> c.received + c.buffer == due)
  {
    RunsKeepFaith([], steps);
    OffersAreDue([], id, steps);
    assert Faithful(Run([], steps)[id]);
    assert OfferedTo([], id) + Due(0, false, id, steps) == Due(0, false, id, steps);
  }

  /** A drop costs a channel more than its buffer of events. */
  predicate DropsLate(c: Channel) {
    c.dropped > 0 ==> |c.offered| > 16
  }

  lemma NextDropsLate(subs: seq<Channel>, step: Step)
    requires forall c :: c in subs ==> Faithful(c) && DropsLate(c)
    ensures forall c :: c in Next(subs, step) ==> DropsLate(c)
  {
    forall i | 0 <= i < |Next(subs, step)| ensures DropsLate(Next(subs, step)[i]) {
      if i < |subs| {
        assert Faithful(subs[i]) && DropsLate(subs[i]);
      }
    }
  }

  lemma {:induction false} RunsDropLate(subs: seq<Channel>, steps: seq<Step>)
    requires forall c :: c in subs ==> Faithful(c) && DropsLate(c)
    ensures forall c :: c in Run(subs, steps) ==> DropsLate(c)
    decreases |steps|
  {
    if steps != [] {
      NextKeepsFaith(subs, steps[0]);
      NextDropsLate(subs, steps[0]);
      RunsDropLate(Next(subs, steps[0]), steps[1..]);
    }
  }

  /** A subscriber that is due no more than sixteen events misses none, however slow it is. */
  lemma FewAreNeverDropped(id: nat, steps: seq<Step>)
    requires id < |Run([], steps)| && |Due(0, false, id, steps)| <= 16
    ensures var c := Run([], steps)[id]; c.received + c.buffer == Due(0, false, id, steps)
  {
    RunsDropLate([], steps);
    FeedsAreFaithful(id, steps);
    OffersAreDue([], id, steps);
    assert DropsLate(Run([], steps)[id]);
  }

  /** So many reads of one channel. */
  function Reads(c: Channel, n: nat): Channel
    decreases n
  {
    if n == 0 then c else Reads(Take(c), n - 1)
  }

  /** A reader that keeps reading gets everything that waits, in order, from a channel that was
      closed meanwhile too. */
  lemma {:induction false} ReadersCatchUp(c: Channel, n: nat)
    requires n >= |c.buffer|
    ensures Reads(c, n) == c.(buffer := [], received := c.received + c.buffer)
    decreases n
  {
    if c.buffer != [] {
      ReadersCatchUp(Take(c), n - 1);
      assert c.received + [c.buffer[0]] + c.buffer[1..] == c.received + c.buffer;
    } else if n > 0 {
      ReadersCatchUp(c, n - 1);
    } else {
      assert c.received + [] == c.received;
    }
  }

  /** One channel's own view of a run. */
  function Alone(c: Channel, id: nat, steps: seq<Step>): Channel
    decreases |steps|
  {
    if steps == [] then c
    else
      var c' :=
        match steps[0]
        case Publish(e) => Offer(c, e)
        case Cancel(x) => if x == id then c.(open := false) else c
        case Receive(x) => if x == id then Take(c) else c
        case Subscribe => c;
      Alone(c', id, steps[1..])
  }

  /** A slow subscriber harms only itself: each channel evolves as if it were alone. */
  lemma {:induction false} SubscribersAreIsolated(subs: seq<Channel>, id: nat, steps: seq<Step>)
    requires id < |subs|
    ensures id < |Run(subs, steps)| && Run(subs, steps)[id] == Alone(subs[id], id, steps)
    decreases |steps|
  {
    if steps != [] {
      SubscribersAreIsolated(Next(subs, steps[0]), id, steps[1..]);
    }
  }
}

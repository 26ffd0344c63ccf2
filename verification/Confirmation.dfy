/** The sliding-window confirmation engine, and a recomputation of everything it
    does from the complete history of its inputs. */
module Confirmation {
  import opened Wrappers
  import opened Model

  datatype Policy = Policy(minConfidence: real, requiredHits: int, windowMs: int, cooldownMs: int)

  type Policies = map<DetectorType, Policy>

  datatype Hit = Hit(timestampMs: int, confidence: real, box: Option<BoundingBox>)

  // ---- The engine, one detection at a time ----------------------------------

  datatype State = State(windows: map<DetectorType, seq<Hit>>, cooldownUntil: map<DetectorType, int>)

  const FRESH := State(map[], map[])

  function WindowOf(s: State, kind: DetectorType): seq<Hit> {
    if kind in s.windows then s.windows[kind] else []
  }

  function CooldownOf(s: State, kind: DetectorType): int {
    if kind in s.cooldownUntil then s.cooldownUntil[kind] else 0
  }

  /** What is left of a deque after its front has been popped while too old. */
  function DropOld(window: seq<Hit>, cutoff: int): (kept: seq<Hit>) {
    if window != [] && window[0].timestampMs < cutoff then DropOld(window[1..], cutoff) else window
  }

  /** The first hit of greatest confidence. */
  function Strongest(window: seq<Hit>): (hit: Hit)
    requires window != []
  {
    var last := window[|window| - 1];
    if |window| == 1 then last
    else
      var best := Strongest(window[..|window| - 1]);
      if last.confidence > best.confidence then last else best
  }

  function EventFrom(kind: DetectorType, window: seq<Hit>, nowMs: int): SecurityEvent {
    if window == [] then SecurityEvent(kind, 0.0, nowMs, nowMs, None)
    else
      var strongest := Strongest(window);
      SecurityEvent(kind, strongest.confidence, window[0].timestampMs, nowMs, strongest.box)
  }

  /** The effect of one detection on the engine. */
  function Step(policies: Policies, s: State, d: Detection, nowMs: int): (State, seq<SecurityEvent>) {
    if d.kind !in policies || d.confidence < policies[d.kind].minConfidence then (s, [])
    else
      var policy := policies[d.kind];
      var window := DropOld(WindowOf(s, d.kind) + [Hit(nowMs, d.confidence, d.box)], nowMs - policy.windowMs);
      if nowMs < CooldownOf(s, d.kind) || |window| < policy.requiredHits then
        (s.(windows := s.windows[d.kind := window]), [])
      else
        (State(s.windows[d.kind := []], s.cooldownUntil[d.kind := nowMs + policy.cooldownMs]),
         [EventFrom(d.kind, window, nowMs)])
  }

  // ---- Histories ----------------------------------------------------------

  datatype Input = Seen(d: Detection, at: int) | Reset

  /** Everything the engine was ever given, latest last. */
  datatype History = Start | Then(past: History, last: Input) {
    function Length(): nat {
      if Start? then 0 else past.Length() + 1
    }

    /** Is `p` this history as it stood at some earlier point, or now? */
    predicate Extends(p: History) {
      this == p || (Then? && past.Extends(p))
    }

    /** The latest clock reading so far. */
    function Latest(): int {
      if Start? then 0 else if last.Seen? then last.at else past.Latest()
    }

    /** Clock readings are non-negative and never decrease. */
    predicate Chronological() {
      Start? || (past.Chronological() && (last.Seen? ==> last.at >= past.Latest()))
    }
  }

  /** The engine run from its fresh state over a whole history. */
  function Run(policies: Policies, h: History): (State, seq<SecurityEvent>) {
    match h
    case Start => (FRESH, [])
    case Then(past, Reset) => (FRESH, Run(policies, past).1)
    case Then(past, Seen(d, at)) =>
      var (s, events) := Run(policies, past);
      var (s', fired) := Step(policies, s, d, at);
      (s', events + fired)
  }

  /** A history followed by one frame's detections. */
  function WithFrame(h: History, detections: seq<Detection>, nowMs: int): History {
    if detections == [] then h
    else
      var n := |detections| - 1;
      Then(WithFrame(h, detections[..n], nowMs), Seen(detections[n], nowMs))
  }

  lemma FrameExtend(h: History, detections: seq<Detection>, n: nat, nowMs: int)
    requires n < |detections|
    ensures WithFrame(h, detections[..n + 1], nowMs)
         == Then(WithFrame(h, detections[..n], nowMs), Seen(detections[n], nowMs))
  {
    assert detections[..n + 1][..n] == detections[..n];
  }

  class Engine {
    const policies: Policies
    var windows: map<DetectorType, seq<Hit>>
    var cooldownUntil: map<DetectorType, int>

    /** Everything the engine has been given so far. */
    ghost var history: History

    ghost predicate Valid()
      reads this
    {
      State(windows, cooldownUntil) == Run(policies, history).0
    }

    constructor (policies: Policies)
      ensures Valid() && this.policies == policies && history == Start
    {
      this.policies := policies;
      windows, cooldownUntil := map[], map[];
      history := Start;
    }

    /** One frame's detections: the events returned are exactly the ones the
        longer history adds. */
    method Process(detections: seq<Detection>, nowMs: int) returns (confirmed: seq<SecurityEvent>)
      requires Valid()
      modifies this
      ensures Valid()
      ensures history == WithFrame(old(history), detections, nowMs)
      ensures Run(policies, history).1 == old(Run(policies, history).1) + confirmed
    {
      confirmed := [];
      for n := 0 to |detections|
        invariant Valid()
        invariant history == WithFrame(old(history), detections[..n], nowMs)
        invariant Run(policies, history).1 == old(Run(policies, history).1) + confirmed
      {
        FrameExtend(old(history), detections, n, nowMs);
        var fired := Observe(detections[n], nowMs);
        confirmed := confirmed + fired;
      }
      assert detections[..|detections|] == detections;
    }

    /** The body of the loop over one frame's detections. */
    method Observe(d: Detection, nowMs: int) returns (fired: seq<SecurityEvent>)
      requires Valid()
      modifies this
      ensures Valid()
      ensures history == Then(old(history), Seen(d, nowMs))
      ensures Run(policies, history).1 == old(Run(policies, history).1) + fired
    {
      history := Then(history, Seen(d, nowMs));
      if d.kind !in policies || d.confidence < policies[d.kind].minConfidence {
        return [];
      }
      var policy := policies[d.kind];
      var window := if d.kind in windows then windows[d.kind] else [];
      window := window + [Hit(nowMs, d.confidence, d.box)];
      window := Evict(window, nowMs, policy.windowMs);
      windows := windows[d.kind := window];
      if nowMs < (if d.kind in cooldownUntil then cooldownUntil[d.kind] else 0) {
        return [];
      }
      if |window| < policy.requiredHits {
        return [];
      }
      var event := EventFrom(d.kind, window, nowMs);
      cooldownUntil := cooldownUntil[d.kind := nowMs + policy.cooldownMs];
      windows := windows[d.kind := []];
      return [event];
    }

    method Evict(window: seq<Hit>, nowMs: int, windowMs: int) returns (kept: seq<Hit>)
      ensures kept == DropOld(window, nowMs - windowMs)
    {
      var cutoff := nowMs - windowMs;
      kept := window;
      while kept != [] && kept[0].timestampMs < cutoff
        invariant DropOld(kept, cutoff) == DropOld(window, cutoff)
      {
        kept := kept[1..];
      }
    }

    method ResetAll()
      requires Valid()
      modifies this
      ensures Valid()
      ensures history == Then(old(history), Reset)
      ensures forall kind :: WindowOf(State(windows, cooldownUntil), kind) == []
      ensures Run(policies, history).1 == old(Run(policies, history).1)
    {
      windows, cooldownUntil := map[], map[];
      history := Then(history, Reset);
    }
  }

  // ---- Recomputation from the history --------------------------------------

  predicate Qualifies(policies: Policies, x: Input, kind: DetectorType) {
    x.Seen? && x.d.kind == kind && kind in policies && x.d.confidence >= policies[kind].minConfidence
  }

  /** A qualifying detection, numbered by its position in the history. */
  datatype Mark = Mark(serial: nat, hit: Hit)

  function MarkOf(serial: nat, x: Input): Mark
    requires x.Seen?
  {
    Mark(serial, Hit(x.at, x.d.confidence, x.d.box))
  }

  function HitsOf(marks: seq<Mark>): seq<Hit> {
    seq(|marks|, i requires 0 <= i < |marks| => marks[i].hit)
  }

  /** The marks no older than `cutoff`, wherever they stand. */
  function Within(marks: seq<Mark>, cutoff: int): seq<Mark> {
    if marks == [] then []
    else
      var last := marks[|marks| - 1];
      Within(marks[..|marks| - 1], cutoff) + if last.hit.timestampMs >= cutoff then [last] else []
  }

  /** Every qualifying detection since the type's latest confirmation or the latest
      reset; nothing is ever evicted from this. */
  function Accrued(policies: Policies, h: History, kind: DetectorType): seq<Mark>
    decreases h, 2
  {
    if h.Start? || h.last.Reset? || Fires(policies, h, kind) then []
    else if Qualifies(policies, h.last, kind) then
      Accrued(policies, h.past, kind) + [MarkOf(h.past.Length(), h.last)]
    else Accrued(policies, h.past, kind)
  }

  /** The time of the type's latest confirmation since the latest reset. */
  function LastFired(policies: Policies, h: History, kind: DetectorType): Option<int>
    decreases h, 2
  {
    if h.Start? || h.last.Reset? then None
    else if Fires(policies, h, kind) then Some(h.last.at)
    else LastFired(policies, h.past, kind)
  }

  /** The detections that can vouch for a confirmation by the last input. */
  function Evidence(policies: Policies, h: History, kind: DetectorType): seq<Mark>
    requires h.Then? && Qualifies(policies, h.last, kind)
    decreases h, 0
  {
    Within(Accrued(policies, h.past, kind) + [MarkOf(h.past.Length(), h.last)],
           h.last.at - policies[kind].windowMs)
  }

  /** Does the last input confirm a hazard of this type? */
  predicate Fires(policies: Policies, h: History, kind: DetectorType)
    decreases h, 1
  {
    && h.Then?
    && Qualifies(policies, h.last, kind)
    && (match LastFired(policies, h.past, kind)
        case None => true
        case Some(t) => h.last.at >= t + policies[kind].cooldownMs)
    && |Evidence(policies, h, kind)| >= policies[kind].requiredHits
  }

  function EventAt(policies: Policies, h: History, kind: DetectorType): SecurityEvent
    requires Fires(policies, h, kind)
  {
    EventFrom(kind, HitsOf(Evidence(policies, h, kind)), h.last.at)
  }

  /** Every event of a history, recomputed. */
  function EventsOf(policies: Policies, h: History): seq<SecurityEvent> {
    if h.Start? then []
    else
      EventsOf(policies, h.past) +
      if h.last.Seen? && Fires(policies, h, h.last.d.kind) then [EventAt(policies, h, h.last.d.kind)] else []
  }

  /** The accrued detections that lie within the window of the latest of them. */
  function CurrentWindow(policies: Policies, h: History, kind: DetectorType): seq<Mark> {
    var marks := Accrued(policies, h, kind);
    if marks == [] || kind !in policies then []
    else Within(marks, marks[|marks| - 1].hit.timestampMs - policies[kind].windowMs)
  }

  ghost predicate Agrees(policies: Policies, h: History, s: State, kind: DetectorType) {
    && WindowOf(s, kind) == HitsOf(CurrentWindow(policies, h, kind))
    && (match LastFired(policies, h, kind)
        case None => kind !in s.cooldownUntil
        case Some(t) => kind in policies && kind in s.cooldownUntil
                        && s.cooldownUntil[kind] == t + policies[kind].cooldownMs)
  }
}

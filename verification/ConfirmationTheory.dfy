/** What the confirmation engine guarantees: it agrees with the recomputation from
    its history, its events are backed by disjoint evidence, and hazard types do
    not influence each other. */
module ConfirmationTheory {
  import opened Wrappers
  import opened Model
  import opened Confirmation

  // ---- The deque is a filter of the history ---------------------------------

  lemma {:induction false} DropOldAppend(window: seq<Hit>, x: Hit, cutoff: int)
    requires x.timestampMs >= cutoff
    ensures DropOld(window + [x], cutoff) == DropOld(window, cutoff) + [x]
  {
    if window != [] && window[0].timestampMs < cutoff {
      assert (window + [x])[1..] == window[1..] + [x];
      DropOldAppend(window[1..], x, cutoff);
    }
  }

  lemma {:induction false} DropOldAll(window: seq<Hit>, cutoff: int)
    requires forall i :: 0 <= i < |window| ==> window[i].timestampMs < cutoff
    ensures DropOld(window, cutoff) == []
  {
    if window != [] {
      DropOldAll(window[1..], cutoff);
    }
  }

  ghost predicate Ordered(marks: seq<Mark>) {
    forall i, j :: 0 <= i <= j < |marks| ==> marks[i].hit.timestampMs <= marks[j].hit.timestampMs
  }

  lemma HitsOfAppend(marks: seq<Mark>, x: Mark)
    ensures HitsOf(marks + [x]) == HitsOf(marks) + [x.hit]
  {
  }

  lemma WithinAppend(marks: seq<Mark>, x: Mark, cutoff: int)
    ensures Within(marks + [x], cutoff)
         == Within(marks, cutoff) + if x.hit.timestampMs >= cutoff then [x] else []
  {
    assert (marks + [x])[..|marks|] == marks;
  }

  lemma {:induction false} WithinNone(marks: seq<Mark>, cutoff: int)
    requires forall i :: 0 <= i < |marks| ==> marks[i].hit.timestampMs < cutoff
    ensures Within(marks, cutoff) == []
  {
    if marks != [] {
      WithinNone(marks[..|marks| - 1], cutoff);
    }
  }

  /** On an ordered deque, popping old entries off the front is the same as
      filtering by the later cutoff. */
  lemma {:induction false} DropOldIsFilter(marks: seq<Mark>, cutoff: int, later: int)
    requires Ordered(marks) && cutoff <= later
    ensures DropOld(HitsOf(Within(marks, cutoff)), later) == HitsOf(Within(marks, later))
  {
    if marks != [] {
      var n := |marks| - 1;
      var earlier, x := marks[..n], marks[n];
      assert marks == earlier + [x];
      DropOldIsFilter(earlier, cutoff, later);
      WithinAppend(earlier, x, cutoff);
      WithinAppend(earlier, x, later);
      if x.hit.timestampMs >= later {
        HitsOfAppend(Within(earlier, cutoff), x);
        HitsOfAppend(Within(earlier, later), x);
        DropOldAppend(HitsOf(Within(earlier, cutoff)), x.hit, later);
      } else {
        WithinOlder(marks, cutoff, later);
        DropOldAll(HitsOf(Within(marks, cutoff)), later);
        WithinNone(marks, later);
      }
    }
  }

  lemma {:induction false} WithinOlder(marks: seq<Mark>, cutoff: int, bound: int)
    requires forall i :: 0 <= i < |marks| ==> marks[i].hit.timestampMs < bound
    ensures forall i :: 0 <= i < |Within(marks, cutoff)| ==> Within(marks, cutoff)[i].hit.timestampMs < bound
  {
    if marks != [] {
      WithinOlder(marks[..|marks| - 1], cutoff, bound);
    }
  }

  /** Is this mark a numbered qualifying detection of the history? */
  predicate Recorded(policies: Policies, h: History, kind: DetectorType, m: Mark) {
    h.Then? && (
      || (Qualifies(policies, h.last, kind) && m == MarkOf(h.past.Length(), h.last))
      || Recorded(policies, h.past, kind, m))
  }

  lemma {:induction false} RecordedEarlier(policies: Policies, h: History, kind: DetectorType, m: Mark)
    requires Recorded(policies, h, kind, m)
    ensures m.serial < h.Length()
    ensures h.Chronological() ==> 0 <= m.hit.timestampMs <= h.Latest()
  {
    if Recorded(policies, h.past, kind, m) {
      RecordedEarlier(policies, h.past, kind, m);
    }
    if h.Chronological() {
      LatestNonNegative(h.past);
    }
  }

  lemma {:induction false} LatestNonNegative(h: History)
    requires h.Chronological()
    ensures h.Latest() >= 0
  {
    if h.Then? {
      LatestNonNegative(h.past);
    }
  }

  lemma {:induction false} AccruedIsRecorded(policies: Policies, h: History, kind: DetectorType)
    ensures forall m :: m in Accrued(policies, h, kind) ==> Recorded(policies, h, kind, m)
  {
    if h.Then? {
      AccruedIsRecorded(policies, h.past, kind);
    }
  }

  lemma {:induction false} AccruedIsOrdered(policies: Policies, h: History, kind: DetectorType)
    requires h.Chronological()
    ensures Ordered(Accrued(policies, h, kind))
  {
    if h.Then? && h.last.Seen? {
      AccruedIsOrdered(policies, h.past, kind);
      OrderedAppend(policies, h.past, h.last, kind);
    } else if h.Then? {
      AccruedIsOrdered(policies, h.past, kind);
    }
  }

  lemma OrderedAppend(policies: Policies, h: History, x: Input, kind: DetectorType)
    requires x.Seen? && Then(h, x).Chronological() && Ordered(Accrued(policies, h, kind))
    ensures Ordered(Accrued(policies, h, kind) + [MarkOf(h.Length(), x)])
  {
    var marks := Accrued(policies, h, kind);
    AccruedIsRecorded(policies, h, kind);
    forall i | 0 <= i < |marks| ensures marks[i].hit.timestampMs <= x.at {
      RecordedEarlier(policies, h, kind, marks[i]);
    }
  }

  lemma EvictYoung(marks: seq<Mark>, newest: Mark, cutoff: int, later: int)
    requires Ordered(marks + [newest]) && cutoff <= later && newest.hit.timestampMs >= cutoff
    ensures HitsOf(Within(marks, cutoff)) + [newest.hit] == HitsOf(Within(marks + [newest], cutoff))
  {
    WithinAppend(marks, newest, cutoff);
    HitsOfAppend(Within(marks, cutoff), newest);
  }

  /** Adding the newest hit to a filtered deque and evicting filters the longer deque. */
  lemma EvictIsFilter(marks: seq<Mark>, newest: Mark, cutoff: int, later: int)
    requires Ordered(marks + [newest]) && cutoff <= later
    ensures DropOld(HitsOf(Within(marks, cutoff)) + [newest.hit], later) == HitsOf(Within(marks + [newest], later))
  {
    if newest.hit.timestampMs >= cutoff {
      EvictYoung(marks, newest, cutoff, later);
      DropOldIsFilter(marks + [newest], cutoff, later);
    } else {
      AllOld(marks, newest, cutoff);
      AllOld(marks, newest, later);
      assert HitsOf([]) == [] && [] + [newest.hit] == [newest.hit];
    }
  }

  lemma AllOld(marks: seq<Mark>, newest: Mark, cutoff: int)
    requires Ordered(marks + [newest]) && newest.hit.timestampMs < cutoff
    ensures Within(marks, cutoff) == [] && Within(marks + [newest], cutoff) == []
  {
    var all := marks + [newest];
    forall i | 0 <= i < |marks| ensures marks[i].hit.timestampMs < cutoff {
      assert all[i].hit.timestampMs <= all[|marks|].hit.timestampMs;
    }
    WithinNone(marks, cutoff);
    WithinAppend(marks, newest, cutoff);
  }

  /** Adding the newest hit to a window of the accrued marks and evicting. */
  lemma WindowAdvances(marks: seq<Mark>, newest: Mark, windowMs: int)
    requires Ordered(marks + [newest])
    ensures var window := if marks == [] then [] else Within(marks, marks[|marks| - 1].hit.timestampMs - windowMs);
            var later := newest.hit.timestampMs - windowMs;
            DropOld(HitsOf(window) + [newest.hit], later) == HitsOf(Within(marks + [newest], later))
  {
    var all, later := marks + [newest], newest.hit.timestampMs - windowMs;
    if marks == [] {
      EvictIsFilter(marks, newest, later, later);
    } else {
      assert all[|marks| - 1].hit.timestampMs <= all[|marks|].hit.timestampMs;
      EvictIsFilter(marks, newest, marks[|marks| - 1].hit.timestampMs - windowMs, later);
    }
  }

  /** Adding the newest hit to the deque and evicting leaves exactly the evidence. */
  lemma WindowIsEvidence(policies: Policies, h: History, kind: DetectorType)
    requires h.Then? && h.Chronological() && Qualifies(policies, h.last, kind)
    ensures DropOld(HitsOf(CurrentWindow(policies, h.past, kind)) + [MarkOf(h.past.Length(), h.last).hit],
                    h.last.at - policies[kind].windowMs)
         == HitsOf(Evidence(policies, h, kind))
  {
    AccruedIsOrdered(policies, h.past, kind);
    OrderedAppend(policies, h.past, h.last, kind);
    WindowAdvances(Accrued(policies, h.past, kind), MarkOf(h.past.Length(), h.last), policies[kind].windowMs);
  }

  lemma AccruedUnfolds(policies: Policies, h: History, kind: DetectorType)
    requires h.Then? && h.last.Seen?
    ensures Accrued(policies, h, kind) ==
            if Fires(policies, h, kind) then []
            else Accrued(policies, h.past, kind) +
                 if Qualifies(policies, h.last, kind) then [MarkOf(h.past.Length(), h.last)] else []
    ensures LastFired(policies, h, kind) ==
            if Fires(policies, h, kind) then Some(h.last.at) else LastFired(policies, h.past, kind)
  {
  }

  lemma AgreesQualifying(policies: Policies, h: History, s: State, kind: DetectorType)
    requires h.Then? && h.Chronological() && Qualifies(policies, h.last, kind)
    requires Agrees(policies, h.past, s, kind)
    ensures Agrees(policies, h, Step(policies, s, h.last.d, h.last.at).0, kind)
    ensures Step(policies, s, h.last.d, h.last.at).1 ==
            if Fires(policies, h, kind) then [EventAt(policies, h, kind)] else []
  {
    WindowIsEvidence(policies, h, kind);
    LatestNonNegative(h.past);
    AccruedUnfolds(policies, h, kind);
    assert CooldownOf(s, kind) <= h.last.at <==>
           match LastFired(policies, h.past, kind)
           case None => true
           case Some(t) => h.last.at >= t + policies[kind].cooldownMs;
  }

  lemma AgreesOther(policies: Policies, h: History, s: State, kind: DetectorType)
    requires h.Then? && h.last.Seen? && !Qualifies(policies, h.last, kind)
    requires Agrees(policies, h.past, s, kind)
    ensures Agrees(policies, h, Step(policies, s, h.last.d, h.last.at).0, kind)
  {
    AccruedUnfolds(policies, h, kind);
    var s' := Step(policies, s, h.last.d, h.last.at).0;
    assert WindowOf(s', kind) == WindowOf(s, kind);
    assert kind in s'.cooldownUntil <==> kind in s.cooldownUntil;
    assert CurrentWindow(policies, h, kind) == CurrentWindow(policies, h.past, kind);
  }

  /** With a clock that never runs backwards, every deque and cooldown of the engine,
      and every event it emits, is the one recomputed from the whole history. */
  lemma {:induction false} EngineRefinesHistory(policies: Policies, h: History)
    requires h.Chronological()
    ensures forall kind :: Agrees(policies, h, Run(policies, h).0, kind)
    ensures Run(policies, h).1 == EventsOf(policies, h)
  {
    if h.Then? {
      EngineRefinesHistory(policies, h.past);
      if h.last.Seen? {
        var s := Run(policies, h.past).0;
        forall kind ensures Agrees(policies, h, Run(policies, h).0, kind) {
          if Qualifies(policies, h.last, kind) {
            AgreesQualifying(policies, h, s, kind);
          } else {
            AgreesOther(policies, h, s, kind);
          }
        }
        if Qualifies(policies, h.last, h.last.d.kind) {
          AgreesQualifying(policies, h, s, h.last.d.kind);
        }
      }
    }
  }

  // ---- Types do not interfere ----------------------------------------------

  function Only(h: History, kind: DetectorType): History {
    match h
    case Start => Start
    case Then(past, x) => if x.Reset? || x.d.kind == kind then Then(Only(past, kind), x) else Only(past, kind)
  }

  function EventsOfKind(events: seq<SecurityEvent>, kind: DetectorType): seq<SecurityEvent> {
    if events == [] then []
    else
      EventsOfKind(events[..|events| - 1], kind) +
      if events[|events| - 1].kind == kind then [events[|events| - 1]] else []
  }

  lemma EventsOfKindExtend(events: seq<SecurityEvent>, fired: seq<SecurityEvent>, kind: DetectorType)
    requires |fired| <= 1
    ensures EventsOfKind(events + fired, kind) ==
            EventsOfKind(events, kind) + if fired != [] && fired[0].kind == kind then fired else []
  {
    if fired == [] {
      assert events + fired == events;
    } else {
      assert (events + fired)[..|events|] == events;
      assert fired == [fired[0]];
    }
  }

  lemma StepIsLocal(policies: Policies, s: State, t: State, d: Detection, nowMs: int, kind: DetectorType)
    requires WindowOf(s, kind) == WindowOf(t, kind) && CooldownOf(s, kind) == CooldownOf(t, kind)
    ensures var (s', fired) := Step(policies, s, d, nowMs);
            if d.kind == kind then
              var (t', alone) := Step(policies, t, d, nowMs);
              && WindowOf(s', kind) == WindowOf(t', kind)
              && CooldownOf(s', kind) == CooldownOf(t', kind)
              && fired == alone && |fired| <= 1 && (fired != [] ==> fired[0].kind == kind)
            else
              && WindowOf(s', kind) == WindowOf(t, kind)
              && CooldownOf(s', kind) == CooldownOf(t, kind)
              && |fired| <= 1 && (fired != [] ==> fired[0].kind != kind)
  {
  }

  /** A type's deque, cooldown and events are those of a run that never saw any other
      type. No assumption on the clock. */
  lemma {:induction false} TypesAreIndependent(policies: Policies, h: History, kind: DetectorType)
    ensures var all, alone := Run(policies, h), Run(policies, Only(h, kind));
            && WindowOf(all.0, kind) == WindowOf(alone.0, kind)
            && CooldownOf(all.0, kind) == CooldownOf(alone.0, kind)
            && EventsOfKind(all.1, kind) == alone.1
  {
    if h.Then? {
      TypesAreIndependent(policies, h.past, kind);
      if h.last.Seen? {
        var s, alone := Run(policies, h.past).0, Run(policies, Only(h.past, kind)).0;
        StepIsLocal(policies, s, alone, h.last.d, h.last.at, kind);
        EventsOfKindExtend(Run(policies, h.past).1, Step(policies, s, h.last.d, h.last.at).1, kind);
      }
    }
  }

  // ---- Evidence and rate ----------------------------------------------------

  ghost predicate IsFirstMaximum(window: seq<Hit>, i: nat) {
    && i < |window|
    && (forall j :: 0 <= j < |window| ==> window[j].confidence <= window[i].confidence)
    && (forall j :: 0 <= j < i ==> window[j].confidence < window[i].confidence)
  }

  lemma {:induction false} StrongestIsFirstMaximum(window: seq<Hit>) returns (i: nat)
    requires window != []
    ensures IsFirstMaximum(window, i) && Strongest(window) == window[i]
  {
    var n := |window| - 1;
    if n == 0 {
      i := 0;
    } else {
      i := StrongestIsFirstMaximum(window[..n]);
      if window[n].confidence > window[i].confidence {
        i := n;
      }
    }
  }

  lemma {:induction false} WithinIsFilter(marks: seq<Mark>, cutoff: int)
    ensures forall m :: m in Within(marks, cutoff) <==> m in marks && m.hit.timestampMs >= cutoff
    ensures |Within(marks, cutoff)| <= |marks|
  {
    if marks != [] {
      var n := |marks| - 1;
      assert marks == marks[..n] + [marks[n]];
      WithinIsFilter(marks[..n], cutoff);
    }
  }

  /** In an ordered deque the first entry kept is the oldest one kept, and an entry
      young enough to be kept at the end stays at the end. */
  lemma {:induction false} WithinKeepsOrder(marks: seq<Mark>, cutoff: int)
    requires Ordered(marks)
    ensures Ordered(Within(marks, cutoff))
  {
    if marks != [] {
      var n := |marks| - 1;
      WithinKeepsOrder(marks[..n], cutoff);
      WithinOlder(marks[..n], cutoff, marks[n].hit.timestampMs + 1);
    }
  }

  /** Every mark of the evidence is a detection of the history that qualifies and lies
      inside the window ending at the confirmation, and there are enough of them. */
  lemma EvidenceIsSound(policies: Policies, h: History, kind: DetectorType)
    requires h.Chronological() && Fires(policies, h, kind)
    ensures |Evidence(policies, h, kind)| >= policies[kind].requiredHits
    ensures forall m :: m in Evidence(policies, h, kind) ==>
              && Recorded(policies, h, kind, m)
              && h.last.at - policies[kind].windowMs <= m.hit.timestampMs <= h.last.at
    ensures Ordered(Evidence(policies, h, kind))
  {
    var newest := MarkOf(h.past.Length(), h.last);
    var marks, cutoff := Accrued(policies, h.past, kind) + [newest], h.last.at - policies[kind].windowMs;
    AccruedIsRecorded(policies, h.past, kind);
    AccruedIsOrdered(policies, h.past, kind);
    OrderedAppend(policies, h.past, h.last, kind);
    WithinIsFilter(marks, cutoff);
    WithinKeepsOrder(marks, cutoff);
    forall m | m in Evidence(policies, h, kind)
      ensures Recorded(policies, h, kind, m) && m.hit.timestampMs <= h.last.at
    {
      RecordedEarlier(policies, h, kind, m);
    }
  }

  /** An event's first-seen time is the earliest of its evidence and its confidence the
      greatest, attained by the first detection that attains it, whose box it carries. */
  lemma EventSummarisesEvidence(policies: Policies, h: History, kind: DetectorType) returns (strongest: nat)
    requires h.Chronological() && Fires(policies, h, kind) && policies[kind].windowMs >= 0
    ensures var evidence, event := Evidence(policies, h, kind), EventAt(policies, h, kind);
            && evidence != [] && IsFirstMaximum(HitsOf(evidence), strongest)
            && event == SecurityEvent(kind, evidence[strongest].hit.confidence, evidence[0].hit.timestampMs,
                                      h.last.at, evidence[strongest].hit.box)
            && forall m :: m in evidence ==> event.firstSeenMs <= m.hit.timestampMs
  {
    EvidenceIsSound(policies, h, kind);
    WithinAppend(Accrued(policies, h.past, kind), MarkOf(h.past.Length(), h.last),
                 h.last.at - policies[kind].windowMs);
    strongest := StrongestIsFirstMaximum(HitsOf(Evidence(policies, h, kind)));
  }

  lemma {:induction false} AccruedAfterFire(policies: Policies, h: History, p: History, kind: DetectorType)
    requires h.Extends(p) && Fires(policies, p, kind)
    ensures h.Length() >= p.Length()
    ensures forall m :: m in Accrued(policies, h, kind) ==> m.serial >= p.Length()
  {
    if h != p {
      AccruedAfterFire(policies, h.past, p, kind);
    }
  }

  lemma EvidenceIsRecorded(policies: Policies, h: History, kind: DetectorType)
    requires h.Then? && Qualifies(policies, h.last, kind)
    ensures forall m :: m in Evidence(policies, h, kind) ==> m.serial < h.Length()
  {
    var newest := MarkOf(h.past.Length(), h.last);
    AccruedIsRecorded(policies, h.past, kind);
    WithinIsFilter(Accrued(policies, h.past, kind) + [newest], h.last.at - policies[kind].windowMs);
    forall m | m in Accrued(policies, h.past, kind) ensures m.serial < h.past.Length() {
      RecordedEarlier(policies, h.past, kind, m);
    }
  }

  lemma EvidenceAfterFire(policies: Policies, h: History, p: History, kind: DetectorType)
    requires h.Then? && Qualifies(policies, h.last, kind) && h.past.Extends(p) && Fires(policies, p, kind)
    ensures forall m :: m in Evidence(policies, h, kind) ==> m.serial >= p.Length()
  {
    AccruedAfterFire(policies, h.past, p, kind);
    WithinIsFilter(Accrued(policies, h.past, kind) + [MarkOf(h.past.Length(), h.last)],
                   h.last.at - policies[kind].windowMs);
  }

  /** Two confirmations of the same type never share a detection: everything that
      vouches for the earlier one precedes everything that vouches for the later. */
  lemma EvidenceIsDisjoint(policies: Policies, p: History, h: History, kind: DetectorType)
    requires h.Then? && h.past.Extends(p) && Fires(policies, p, kind) && Fires(policies, h, kind)
    ensures forall m, n :: m in Evidence(policies, p, kind) && n in Evidence(policies, h, kind)
              ==> m.serial < p.Length() <= n.serial
  {
    EvidenceIsRecorded(policies, p, kind);
    EvidenceAfterFire(policies, h, p, kind);
  }

  /** Is there no reset between the two histories? */
  predicate Uninterrupted(p: History, h: History) {
    h == p || (h.Then? && h.last.Seen? && Uninterrupted(p, h.past))
  }

  lemma {:induction false} LastFiredSince(policies: Policies, p: History, h: History, kind: DetectorType)
    requires h.Chronological() && Uninterrupted(p, h) && Fires(policies, p, kind)
    ensures LastFired(policies, h, kind).Some? && LastFired(policies, h, kind).value >= p.last.at
    ensures h.Latest() >= p.last.at
  {
    if h != p {
      LastFiredSince(policies, p, h.past, kind);
    }
  }

  /** Two confirmations of one type with no reset between them are at least the
      cooldown apart. */
  lemma ConfirmationsAreSpaced(policies: Policies, p: History, h: History, kind: DetectorType)
    requires h.Then? && h.Chronological() && Uninterrupted(p, h.past)
    requires Fires(policies, p, kind) && Fires(policies, h, kind)
    ensures h.last.at >= p.last.at + policies[kind].cooldownMs
  {
    LastFiredSince(policies, p, h.past, kind);
  }

  function Qualifying(policies: Policies, h: History, kind: DetectorType): nat {
    if h.Start? then 0
    else Qualifying(policies, h.past, kind) + if Qualifies(policies, h.last, kind) then 1 else 0
  }

  lemma ConfirmationsCount(policies: Policies, h: History, kind: DetectorType)
    requires h.Then?
    ensures |EventsOfKind(EventsOf(policies, h), kind)|
         == |EventsOfKind(EventsOf(policies, h.past), kind)| + if Fires(policies, h, kind) then 1 else 0
  {
    var past := EventsOf(policies, h.past);
    if h.last.Seen? && Fires(policies, h, h.last.d.kind) {
      var event := EventAt(policies, h, h.last.d.kind);
      assert event.kind == h.last.d.kind;
      EventsOfKindExtend(past, [event], kind);
    } else {
      EventsOfKindExtend(past, [], kind);
    }
  }

  lemma FiringNeedsAccrued(policies: Policies, h: History, kind: DetectorType)
    requires Fires(policies, h, kind)
    ensures policies[kind].requiredHits <= |Accrued(policies, h.past, kind)| + 1
  {
    WithinIsFilter(Accrued(policies, h.past, kind) + [MarkOf(h.past.Length(), h.last)],
                   h.last.at - policies[kind].windowMs);
  }

  function Events(policies: Policies, h: History, kind: DetectorType): nat {
    |EventsOfKind(EventsOf(policies, h), kind)|
  }

  /** One more input keeps the books balanced, whatever the history before it. */
  lemma PaidForStep(policies: Policies, h: History, kind: DetectorType, events: nat, required: nat)
    requires h.Then? && h.last.Seen? && kind in policies && required == policies[kind].requiredHits
    requires events * required + |Accrued(policies, h.past, kind)| <= Qualifying(policies, h.past, kind)
    ensures (events + if Fires(policies, h, kind) then 1 else 0) * required
            + |Accrued(policies, h, kind)| <= Qualifying(policies, h, kind)
  {
    AccruedUnfolds(policies, h, kind);
    if Fires(policies, h, kind) {
      FiringNeedsAccrued(policies, h, kind);
      assert (events + 1) * required == events * required + required;
    }
  }

  lemma {:induction false} EventsArePaidFor(policies: Policies, h: History, kind: DetectorType)
    requires kind in policies && policies[kind].requiredHits >= 0
    ensures Events(policies, h, kind) * policies[kind].requiredHits
            + |Accrued(policies, h, kind)| <= Qualifying(policies, h, kind)
  {
    if h.Then? {
      EventsArePaidFor(policies, h.past, kind);
      ConfirmationsCount(policies, h, kind);
      if h.last.Seen? {
        PaidForStep(policies, h, kind, Events(policies, h.past, kind), policies[kind].requiredHits);
      }
    }
  }

  /** Events are paid for in detections: over any history, resets included, a type's
      events times its required hits never exceed its qualifying detections. */
  lemma EventRate(policies: Policies, h: History, kind: DetectorType)
    requires h.Chronological() && kind in policies
    ensures |EventsOfKind(Run(policies, h).1, kind)| * policies[kind].requiredHits <= Qualifying(policies, h, kind)
  {
    EngineRefinesHistory(policies, h);
    var n, required := |EventsOfKind(Run(policies, h).1, kind)|, policies[kind].requiredHits;
    if required >= 0 {
      EventsArePaidFor(policies, h, kind);
    } else {
      assert n * required <= 0;
    }
  }
}

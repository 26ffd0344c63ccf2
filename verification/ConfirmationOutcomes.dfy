/** When a hazard is confirmed, told by the detections of the history one by one. */
module ConfirmationOutcomes {
  import opened Wrappers
  import opened Model
  import opened Confirmation
  import opened ConfirmationTheory

  /** A detection of the type with at least its policy's confidence. */
  predicate Counts(policies: Policies, x: Input, kind: DetectorType) {
    x.Seen? && x.d.kind == kind && kind in policies && policies[kind].minConfidence <= x.d.confidence
  }

  /** From the history `p` on, its own last input included, the type was neither confirmed
      nor reset. */
  predicate Pending(policies: Policies, h: History, p: History, kind: DetectorType)
    decreases h
  {
    h.Then? && h.last != Reset && !Fires(policies, h, kind) && (h == p || Pending(policies, h.past, p, kind))
  }

  function Numbered(p: History): Mark
    requires p.Then? && p.last.Seen?
  {
    Mark(p.past.Length(), Hit(p.last.at, p.last.d.confidence, p.last.d.box))
  }

  /** What has accrued for a type is exactly its counting detections since it was last
      confirmed or reset. */
  lemma {:induction false} AccruedOutcome(policies: Policies, h: History, kind: DetectorType, m: Mark)
    ensures m in Accrued(policies, h, kind) <==>
            exists p :: Pending(policies, h, p, kind) && p.Then? && Counts(policies, p.last, kind) && m == Numbered(p)
  {
    if h.Then? && h.last != Reset && !Fires(policies, h, kind) {
      AccruedOutcome(policies, h.past, kind, m);
      if m in Accrued(policies, h.past, kind) {
        var p :| Pending(policies, h.past, p, kind) && p.Then? && Counts(policies, p.last, kind) && m == Numbered(p);
        assert Pending(policies, h, p, kind);
      } else if m in Accrued(policies, h, kind) {
        assert Pending(policies, h, h, kind) && m == Numbered(h);
      }
    }
  }

  /** The type was confirmed by the last input of `p`, and since then neither confirmed again
      nor reset. */
  predicate Latest(policies: Policies, h: History, p: History, kind: DetectorType)
    decreases h
  {
    p.Then? && p.last.Seen? && h.Then? && h.last != Reset &&
    if Fires(policies, h, kind) then h == p else Latest(policies, h.past, p, kind)
  }

  lemma {:induction false} LatestFires(policies: Policies, h: History, p: History, kind: DetectorType)
    requires Latest(policies, h, p, kind)
    ensures Fires(policies, p, kind) && h.Extends(p) && LastFired(policies, h, kind) == Some(p.last.at)
  {
    if !Fires(policies, h, kind) {
      LatestFires(policies, h.past, p, kind);
    }
  }

  /** The cooldown counts from the latest confirmation since the latest reset. */
  lemma {:induction false} LastFiredOutcome(policies: Policies, h: History, kind: DetectorType)
    ensures forall p :: Latest(policies, h, p, kind) ==> LastFired(policies, h, kind) == Some(p.last.at)
    ensures LastFired(policies, h, kind).Some? ==> exists p :: Latest(policies, h, p, kind)
  {
    forall p | Latest(policies, h, p, kind) ensures LastFired(policies, h, kind) == Some(p.last.at) {
      LatestFires(policies, h, p, kind);
    }
    if h.Then? && h.last != Reset {
      if Fires(policies, h, kind) {
        assert Latest(policies, h, h, kind);
      } else {
        LastFiredOutcome(policies, h.past, kind);
        if LastFired(policies, h, kind).Some? {
          var p :| Latest(policies, h.past, p, kind);
          assert Latest(policies, h, p, kind);
        }
      }
    }
  }

  /** Numbered in the order they happened. */
  ghost predicate Increasing(marks: seq<Mark>) {
    forall i, j :: 0 <= i < j < |marks| ==> marks[i].serial < marks[j].serial
  }

  lemma IncreasingAppend(marks: seq<Mark>, m: Mark)
    requires Increasing(marks) && forall x :: x in marks ==> x.serial < m.serial
    ensures Increasing(marks + [m])
  {
  }

  lemma {:induction false} SerialsGrow(policies: Policies, h: History, kind: DetectorType)
    ensures Increasing(Accrued(policies, h, kind))
    ensures forall m :: m in Accrued(policies, h, kind) ==> m.serial < h.Length()
  {
    AccruedIsRecorded(policies, h, kind);
    forall m | m in Accrued(policies, h, kind) ensures m.serial < h.Length() {
      RecordedEarlier(policies, h, kind, m);
    }
    if h.Then? && h.last.Seen? {
      SerialsGrow(policies, h.past, kind);
      AccruedUnfolds(policies, h, kind);
      IncreasingAppend(Accrued(policies, h.past, kind), MarkOf(h.past.Length(), h.last));
    }
  }

  lemma {:induction false} DistinctMarks(marks: seq<Mark>)
    requires Increasing(marks)
    ensures |marks| == |set m | m in marks|
  {
    if marks != [] {
      var n := |marks| - 1;
      DistinctMarks(marks[..n]);
      assert marks == marks[..n] + [marks[n]];
      assert marks[n] !in marks[..n];
      assert (set m | m in marks) == (set m | m in marks[..n]) + {marks[n]};
    }
  }

  lemma WithinBelow(earlier: seq<Mark>, newest: Mark, cutoff: int)
    requires Increasing(earlier + [newest])
    ensures forall m :: m in Within(earlier, cutoff) ==> m.serial < newest.serial
  {
    WithinIsFilter(earlier, cutoff);
    forall m | m in Within(earlier, cutoff) ensures m.serial < newest.serial {
      var i :| 0 <= i < |earlier| && earlier[i] == m;
      assert (earlier + [newest])[i] == m && (earlier + [newest])[|earlier|] == newest;
    }
  }

  lemma {:induction false} WithinKeepsSerials(marks: seq<Mark>, cutoff: int)
    requires Increasing(marks)
    ensures Increasing(Within(marks, cutoff))
  {
    if marks != [] {
      var earlier, newest := marks[..|marks| - 1], marks[|marks| - 1];
      assert marks == earlier + [newest];
      WithinKeepsSerials(earlier, cutoff);
      WithinBelow(earlier, newest, cutoff);
      WithinAppend(earlier, newest, cutoff);
      if newest.hit.timestampMs >= cutoff {
        IncreasingAppend(Within(earlier, cutoff), newest);
      } else {
        assert Within(earlier, cutoff) + [] == Within(earlier, cutoff);
      }
    }
  }

  ghost function YoungOf(marks: seq<Mark>, cutoff: int): set<Mark> {
    set m | m in marks && m.hit.timestampMs >= cutoff
  }

  lemma WithinCounts(marks: seq<Mark>, cutoff: int)
    requires Increasing(marks)
    ensures |Within(marks, cutoff)| == |YoungOf(marks, cutoff)|
  {
    WithinKeepsSerials(marks, cutoff);
    WithinIsFilter(marks, cutoff);
    DistinctMarks(Within(marks, cutoff));
    assert (set m | m in Within(marks, cutoff)) == YoungOf(marks, cutoff);
  }

  /** The detections that vouch for a confirmation by the last input: itself, and those accrued
      before it, that are no older than the window. */
  ghost function Vouching(policies: Policies, h: History, kind: DetectorType): set<Mark>
    requires h.Then? && Counts(policies, h.last, kind)
  {
    YoungOf(Accrued(policies, h.past, kind) + [Numbered(h)], h.last.at - policies[kind].windowMs)
  }

  lemma EvidenceIs(policies: Policies, h: History, kind: DetectorType, marks: seq<Mark>)
    requires h.Then? && Counts(policies, h.last, kind) && marks == Accrued(policies, h.past, kind) + [Numbered(h)]
    ensures Evidence(policies, h, kind) == Within(marks, h.last.at - policies[kind].windowMs)
  {
  }

  lemma MarksGrow(policies: Policies, h: History, kind: DetectorType) returns (marks: seq<Mark>)
    requires h.Then? && Counts(policies, h.last, kind)
    ensures marks == Accrued(policies, h.past, kind) + [Numbered(h)] && Increasing(marks)
  {
    SerialsGrow(policies, h.past, kind);
    IncreasingAppend(Accrued(policies, h.past, kind), Numbered(h));
    marks := Accrued(policies, h.past, kind) + [Numbered(h)];
  }

  lemma VouchingIsEvidence(policies: Policies, h: History, kind: DetectorType)
    requires h.Then? && Counts(policies, h.last, kind)
    ensures |Evidence(policies, h, kind)| == |Vouching(policies, h, kind)|
  {
    var marks := MarksGrow(policies, h, kind);
    WithinCounts(marks, h.last.at - policies[kind].windowMs);
    EvidenceIs(policies, h, kind, marks);
  }

  /** A hazard is confirmed by an input iff that is a counting detection, the cooldown of the
      latest confirmation is over, and enough counting detections lie in the window. */
  lemma ConfirmedIff(policies: Policies, h: History, kind: DetectorType)
    ensures Fires(policies, h, kind) <==>
            && h.Then? && Counts(policies, h.last, kind)
            && (forall p :: Latest(policies, h.past, p, kind) ==> h.last.at >= p.last.at + policies[kind].cooldownMs)
            && |Vouching(policies, h, kind)| >= policies[kind].requiredHits
  {
    if h.Then? {
      LastFiredOutcome(policies, h.past, kind);
      if Counts(policies, h.last, kind) {
        VouchingIsEvidence(policies, h, kind);
      }
    }
  }

  lemma AllBefore(marks: seq<Mark>, cutoff: int)
    requires marks != [] && Ordered(marks) && marks[|marks| - 1].hit.timestampMs < cutoff
    ensures Within(marks, cutoff) == []
  {
    forall i | 0 <= i < |marks| ensures marks[i].hit.timestampMs < cutoff {
      assert marks[i].hit.timestampMs <= marks[|marks| - 1].hit.timestampMs;
    }
    WithinNone(marks, cutoff);
  }

  lemma NoEvidence(policies: Policies, h: History, kind: DetectorType)
    requires h.Then? && h.Chronological() && Counts(policies, h.last, kind) && policies[kind].windowMs < 0
    ensures Evidence(policies, h, kind) == []
  {
    var marks := MarksGrow(policies, h, kind);
    AccruedIsOrdered(policies, h.past, kind);
    OrderedAppend(policies, h.past, h.last, kind);
    AllBefore(marks, h.last.at - policies[kind].windowMs);
    EvidenceIs(policies, h, kind, marks);
  }

  lemma EventOfNothing(kind: DetectorType, marks: seq<Mark>, at: int)
    requires marks == []
    ensures EventFrom(kind, HitsOf(marks), at) == SecurityEvent(kind, 0.0, at, at, None)
  {
  }

  /** With a negative window a confirmation has no evidence, and its event says so. */
  lemma NoEvidenceOutcome(policies: Policies, h: History, kind: DetectorType)
    requires h.Chronological() && Fires(policies, h, kind) && policies[kind].windowMs < 0
    ensures EventAt(policies, h, kind) == SecurityEvent(kind, 0.0, h.last.at, h.last.at, None)
  {
    NoEvidence(policies, h, kind);
    EventOfNothing(kind, Evidence(policies, h, kind), h.last.at);
  }

  /** Each detection that confirms its type adds one event, and nothing else does. */
  lemma EventsOutcome(policies: Policies, h: History, d: Detection, at: int)
    requires Then(h, Seen(d, at)).Chronological()
    ensures Run(policies, Then(h, Reset)).1 == Run(policies, h).1
    ensures Run(policies, Then(h, Seen(d, at))).1 == Run(policies, h).1 +
              if Fires(policies, Then(h, Seen(d, at)), d.kind) then [EventAt(policies, Then(h, Seen(d, at)), d.kind)]
              else []
  {
    EngineRefinesHistory(policies, h);
    EngineRefinesHistory(policies, Then(h, Seen(d, at)));
  }
}

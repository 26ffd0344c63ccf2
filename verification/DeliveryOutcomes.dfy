/** That an undisturbed delivery succeeds, from the phone's post to its belief. */
module DeliveryOutcomes {
  import opened Wrappers
  import opened Domain
  import opened Events
  import opened Ingest
  import opened Delivery
  import E = EventOutcomes
  import Outbox

  predicate OnConnector(step: Step) {
    step.Resolve? || step.Store? || step.Publish?
  }

  lemma {:induction false} ConnectorKeepsBoxes(env: Env, s: System, steps: seq<Step>)
    requires forall step :: step in steps ==> OnConnector(step)
    ensures Run(env, s, steps).boxes == s.boxes
    decreases |steps|
  {
    if steps != [] {
      assert OnConnector(steps[0]);
      ConnectorKeepsBoxes(env, Next(env, s, steps[0]), steps[1..]);
    }
  }

  /** An event with an id, a known type, a confidence and a time, from a device the connector
      can name. */
  predicate Deliverable(s: System, b: EdgeEvent) {
    && b.deviceId != "" && b.eventId != "" && !b.kind.OtherHazard? && 0.0 <= b.confidence <= 1.0
    && b.confirmedAtMs > 0
    && ((GuardianEdge, b.deviceId) in s.devices ==> s.devices[(GuardianEdge, b.deviceId)].id != "")
  }

  lemma AnsweredWith202(env: Env, s: System, r: Req, now: int, w: Weather)
    requires r in s.wire && Body(env, s, r).Some? && Deliverable(s, Body(env, s, r).value)
    requires w.device == NoFault == w.insert && w.freshId != ""
    ensures var s' := Run(env, s, Handler(env, s, r, now, w));
            && (r, 202) in s'.answers && s'.boxes == s.boxes
            && Database(s') == PostEvent(Database(s), Body(env, s, r), now, w).1
  {
    HandlerIsPostEvent(env, s, r, now, w);
    E.PostOutcome(Database(s), Body(env, s, r), now, w);
    ConnectorKeepsBoxes(env, s, Handler(env, s, r, now, w));
  }

  /** When a phone's post arrives, its handler is not disturbed and the answer comes back, the
      phone counts the event as delivered and the connector has it. */
  lemma UndisturbedDeliverySucceeds(env: Env, s: System, d: nat, r: Req, now: int, w: Weather)
    requires Outstanding(s, d) == Some(r) && Body(env, s, r).Some? && Deliverable(s, Body(env, s, r).value)
    requires w.device == NoFault == w.insert && w.freshId != "" && r.serial < |s.boxes[d].fates|
    ensures var s1 := Next(env, s, Send(d));
            var s2 := Run(env, s1, Handler(env, s1, r, now, w));
            var s3 := Next(env, s2, Hear(d, Outbox.Answered(202)));
            && CountsDelivered(s3, r) && s3.boxes[d].current == None
            && HasKey(s3.rows, (GuardianEdge, Body(env, s, r).value.eventId))
  {
    var s1 := Next(env, s, Send(d));
    assert s1 == s.(wire := s.wire + {r});
    AnsweredWith202(env, s1, r, now, w);
    var s2 := Run(env, s1, Handler(env, s1, r, now, w));
    assert Outstanding(s2, d) == Some(r) && CanHear(s2, d, Outbox.Answered(202));
    Stored(Database(s1), Body(env, s1, r), now, w);
  }

  lemma Stored(db: Db, body: Option<EdgeEvent>, now: int, w: Weather)
    requires PostEvent(db, body, now, w).0 == 202
    ensures HasKey(PostEvent(db, body, now, w).1.rows, (GuardianEdge, body.value.eventId))
  {
    var (id, seen) := UpsertDevice(db, GuardianEdge, Presence(body.value, now), w.freshId);
    var e := ToEvent(body.value, id, now);
    if !HasKey(seen.rows, e.Key()) {
      assert e in seen.rows + [e];
    }
  }
}

/** What each operation on commands comes to, told by the fields of the commands alone. */
module CommandOutcomes {
  import opened Wrappers
  import opened Domain
  import opened Commands
  import opened CommandsTheory
  import opened CommandService
  import Events

  // ---- Creating ------------------------------------------------------------------------------

  /** A retry finds its key taken and changes nothing; anything else becomes a new pending
      command, an empty payload an empty object, and is queued for its sender if it has one. */
  lemma CreateOutcome(s: State, at: int, id: string, d: Draft, pushed: bool)
    requires id !in s.table
    ensures var s' := CreateStep(s, at, id, d, pushed, Events.NoFault);
            if d.idemKey != "" && exists x :: x in s.table && s.table[x].deviceId == d.deviceId
                                            && s.table[x].idemKey == d.idemKey
            then s' == s
            else
              && s'.table == s.table[id := Command(id, d.deviceId, d.kind, if d.payload == "" then "{}" else d.payload,
                                                   d.idemKey, Pending, "", at, None, None, d.expiresAt)]
              && s'.counters == s.counters.(created := s.counters.created + 1)
              && s'.toSend == if pushed then s.toSend + {id} else s.toSend
    ensures CreateStep(s, at, id, d, pushed, Events.FailsBefore) == s
    ensures CreateStep(s, at, id, d, pushed, Events.CommitsThenFails).table
         == CreateStep(s, at, id, d, pushed, Events.NoFault).table
  {
    if x :| x in s.table && s.table[x].deviceId == d.deviceId && s.table[x].idemKey == d.idemKey && d.idemKey != "" {
      assert Matches(s.table[x], d.deviceId, d.idemKey);
    }
  }

  // ---- Polling ---------------------------------------------------------------------------------

  /** The device's pending commands whose time is not up and that nobody else has locked. */
  function Waiting(t: Table, deviceId: string, now: int, locked: set<string>): set<string> {
    set id | id in t && id !in locked && t[id].deviceId == deviceId && t[id].state == Pending && t[id].expiresAt > now
  }

  lemma SubsetSizes(a: set<string>, b: set<string>)
    requires a <= b
    ensures |a| <= |b| && (|a| == |b| ==> a == b)
  {
    assert b == a + (b - a);
  }

  lemma AllWaitOrMore(ids: seq<string>, waiting: set<string>)
    requires Distinct(ids) && Elements(ids) <= waiting
    ensures |ids| <= |waiting| && (|ids| == |waiting| <==> forall b :: b in waiting ==> b in ids)
  {
    DistinctElements(ids);
    SubsetSizes(Elements(ids), waiting);
    if forall b :: b in waiting ==> b in ids {
      assert Elements(ids) == waiting;
    } else {
      var b :| b in waiting && b !in ids;
      assert b !in Elements(ids);
    }
  }

  /** A poll may return exactly the oldest of the waiting commands, as many as the limit
      allows and all of them if that is enough; limits outside 1 to 50 stand for 10. */
  lemma ClaimsAreExact(t: Table, deviceId: string, limit: int, now: int, locked: set<string>, ids: seq<string>)
    ensures MayClaim(t, deviceId, limit, now, locked, ids) <==>
            var waiting, most := Waiting(t, deviceId, now, locked), if 1 <= limit <= 50 then limit else 10;
            && Distinct(ids) && Elements(ids) <= waiting
            && |ids| == (if |waiting| <= most then |waiting| else most)
            && forall a, b :: a in ids && a in waiting && b in waiting && b !in ids ==>
                 t[a].createdAt <= t[b].createdAt
  {
    var waiting := Waiting(t, deviceId, now, locked);
    if Distinct(ids) && Elements(ids) <= waiting {
      AllWaitOrMore(ids, waiting);
      assert forall id :: id in ids ==> id in Elements(ids);
    }
    if MayClaim(t, deviceId, limit, now, locked, ids) {
      assert Elements(ids) <= waiting;
    }
  }

  /** The commands a poll returns are delivered at that instant; all others stay as they are. */
  lemma PollOutcome(s: State, at: int, ids: seq<string>, id: string)
    requires id in s.table
    ensures var s' := PollStep(s, at, ids, Events.NoFault);
            && id in s'.table && s'.table.Keys == s.table.Keys && s'.polled == s.polled + ids
            && s'.table[id] ==
               (if id in ids then s.table[id].(state := Delivered, deliveredAt := Some(at)) else s.table[id])
            && s'.counters == s.counters.(delivered := s.counters.delivered + |ids|)
    ensures PollStep(s, at, ids, Events.FailsBefore) == s
    ensures PollStep(s, at, ids, Events.CommitsThenFails)
         == s.(table := PollStep(s, at, ids, Events.NoFault).table)
  {
  }

  // ---- Moving ------------------------------------------------------------------------------------

  /** The moves the state machine has. */
  const MOVES: set<(CommandState, CommandState)> :=
    {(Pending, Delivered), (Pending, Failed), (Delivered, Acknowledged), (Delivered, Failed)}

  /** A command that was moved: the state it entered, the time it did, and a new message if
      there is one. */
  function Entered(c: Command, to: CommandState, message: string, now: int): Command {
    Command(c.id, c.deviceId, c.kind, c.payload, c.idemKey,
            to, if message == "" then c.message else message, c.createdAt,
            if to == Delivered then Some(now) else c.deliveredAt, if to == Delivered then c.completedAt else Some(now),
            c.expiresAt)
  }

  lemma TransitionOutcome(t: Table, id: string, to: CommandState, message: string, now: int)
    ensures var (r, t') := TransitionCommand(t, id, to, message, now);
            && (r == Moved <==> id in t && (t[id].state, to) in MOVES)
            && (r == NotFound <==> id !in t && to != Pending)
            && (r == Moved || r == NotFound || r == InvalidTransition)
            && t' == if r == Moved then t[id := Entered(t[id], to, message, now)] else t
  {
  }

  lemma MoveOutcome(
      s: State, at: int, id: string, to: CommandState, message: string, failure: bool, fault: Fault)
    ensures var s' := MoveStep(s, at, id, to, message, failure, fault);
            if fault == Events.FailsBefore || id !in s.table || (s.table[id].state, to) !in MOVES then s' == s
            else
              && s' == s.(table := s.table[id := Entered(s.table[id], to, message, at)], counters := s'.counters)
              && s'.counters ==
                 if fault != Events.NoFault then s.counters
                 else
                   s.counters.(delivered := s.counters.delivered + (if to == Delivered then 1 else 0),
                               acknowledged := s.counters.acknowledged + (if to == Acknowledged then 1 else 0),
                               failed := s.counters.failed + (if to == Failed then 1 else 0),
                               failures := s.counters.failures + (if failure then 1 else 0))
  {
    TransitionOutcome(s.table, id, to, message, at);
  }

  /** A dispatch is one send and then: DELIVERED if the sender says so, FAILED and counted as
      a failure if it errs, whatever state it names otherwise if the command can get there,
      and nothing if it cannot. */
  lemma DispatchOutcome(
      s: State, at: int, id: string, sentAt: int, sent: Sent, message: string, fault: Fault)
    requires id in s.table && s.table[id].state == Pending
    ensures var s' := DispatchSteps(s, at, id, sentAt, sent, message, fault);
            var c := s.table[id];
            && s'.sends == s.sends + [id] && s'.toSend == s.toSend - {id}
            && (fault == Events.FailsBefore ==> s'.table == s.table && s'.counters == s.counters)
            && (fault == Events.NoFault && sent == SentState(Delivered) ==>
                  && s'.table == s.table[id := Entered(c, Delivered, message, sentAt)]
                  && s'.counters == s.counters.(delivered := s.counters.delivered + 1))
            && (fault == Events.NoFault && sent == SendError ==>
                  && s'.table == s.table[id := Entered(c, Failed, message, sentAt)]
                  && s'.counters == s.counters.(failed := s.counters.failed + 1, failures := s.counters.failures + 1))
            && (fault == Events.NoFault && sent == SentState(Failed) ==>
                  && s'.table == s.table[id := Entered(c, Failed, message, sentAt)]
                  && s'.counters == s.counters.(failed := s.counters.failed + 1))
            && (sent == SentState(Pending) || sent == SentState(Acknowledged) ==>
                  s'.table == s.table && s'.counters == s.counters)
  {
    var s1 := Apply(s, Send(at, id));
    MoveOutcome(s1.(awaiting := s1.awaiting - {id}), sentAt, id, Target(sent), message, sent == SendError, fault);
  }

  /** A device's result ends a delivered command, a bad one also a command that is still
      pending, and counts as a failure iff it is bad. */
  lemma ReportOutcome(s: State, at: int, id: string, ok: bool, message: string)
    requires id in s.table
    ensures var s' := Apply(s, Report(at, id, ok, message, Events.NoFault));
            var c := s.table[id];
            if c.state == Delivered && ok then
              && s'.table == s.table[id := Entered(c, Acknowledged, message, at)]
              && s'.counters == s.counters.(acknowledged := s.counters.acknowledged + 1)
            else if (c.state == Delivered || c.state == Pending) && !ok then
              && s'.table == s.table[id := Entered(c, Failed, message, at)]
              && s'.counters == s.counters.(failed := s.counters.failed + 1, failures := s.counters.failures + 1)
            else s' == s
  {
    MoveOutcome(s, at, id, if ok then Acknowledged else Failed, message, !ok, Events.NoFault);
  }

  /** The reaper fails what is unfinished and overdue, with its own message, and counts it
      twice. */
  lemma ReapOutcome(s: State, at: int, id: string)
    requires id in s.table
    ensures var s' := ReapStep(s, at, Events.NoFault);
            var c := s.table[id];
            && s'.table.Keys == s.table.Keys
            && s'.table[id] ==
               (if (c.state == Pending || c.state == Delivered) && c.expiresAt <= at
                then Entered(c, Failed, "expired before completion", at) else c)
            && s'.counters.failed - s.counters.failed == s'.counters.failures - s.counters.failures
               == |set x | x in s.table && s'.table[x] != s.table[x]|
            && s'.counters == s.counters.(failed := s'.counters.failed, failures := s'.counters.failures)
    ensures ReapStep(s, at, Events.FailsBefore) == s
    ensures ReapStep(s, at, Events.CommitsThenFails) == s.(table := ReapStep(s, at, Events.NoFault).table)
  {
    var s' := ReapStep(s, at, Events.NoFault);
    assert (set x | x in s.table && s'.table[x] != s.table[x]) == OverdueIds(s.table, at);
  }

  // ---- Any step -----------------------------------------------------------------------------------

  /** What a committed step makes of a command, whatever else is in the table. */
  function AfterStep(c: Command, step: Step): Command {
    match step
    case Create(_, _, _, _, _) => c
    case Send(_, _) => c
    case Settle(at, id, sent, message, _) =>
      var to := if sent == SendError then Failed else sent.state;
      if c.id == id && (c.state, to) in MOVES then Entered(c, to, message, at) else c
    case Poll(at, _, _, _, ids, _) => if c.id in ids then c.(state := Delivered, deliveredAt := Some(at)) else c
    case Report(at, id, ok, message, _) =>
      var to := if ok then Acknowledged else Failed;
      if c.id == id && (c.state, to) in MOVES then Entered(c, to, message, at) else c
    case Reap(at, _) =>
      if (c.state == Pending || c.state == Delivered) && c.expiresAt <= at
      then Entered(c, Failed, "expired before completion", at) else c
  }

  function FaultOf(step: Step): Fault {
    if step.Send? then Events.NoFault else step.fault
  }

  /** Every step does to each command what its own fields and the step say, or nothing if its
      statement is lost. */
  lemma StepOutcome(s: State, step: Step, id: string)
    requires id in s.table && s.table[id].id == id && Enabled(s, step)
    ensures id in Next(s, step).table
    ensures Next(s, step).table[id] ==
            if FaultOf(step) == Events.FailsBefore then s.table[id] else AfterStep(s.table[id], step)
  {
    match step
    case Create(at, x, d, pushed, _) => CreateOutcome(s, at, x, d, pushed);
    case Send(_, _) =>
    case Settle(at, x, sent, message, fault) =>
      MoveOutcome(s.(awaiting := s.awaiting - {x}), at, x, Target(sent), message, sent == SendError, fault);
    case Poll(at, _, _, _, ids, _) => PollOutcome(s, at, ids, id);
    case Report(at, x, ok, message, fault) =>
      MoveOutcome(s, at, x, if ok then Acknowledged else Failed, message, !ok, fault);
    case Reap(at, _) => ReapOutcome(s, at, id);
  }
}

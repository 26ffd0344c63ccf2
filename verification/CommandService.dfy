/** The code over the commands table: each method is one or more of the lifecycle's
    steps, and returns what the table says. */
module CommandService {
  import opened Wrappers
  import opened Domain
  import opened Commands
  import Events

  datatype CreateResult = Created(command: Command) | Existing(command: Command) | CreateFailed

  class Store {
    var table: Table

    constructor ()
      ensures table == map[]
    {
      table := map[];
    }

    method CreateCommand(id: string, d: Draft, now: int, fault: Fault) returns (r: CreateResult)
      requires id !in table
      modifies this
      ensures table == if fault == Events.FailsBefore then old(table) else InsertCommand(old(table), id, d, now)
      ensures r.CreateFailed? <==> fault != Events.NoFault
      ensures r.Created? ==> !KeyTaken(old(table), d.deviceId, d.idemKey) && r.command == Pend(id, d, now)
      ensures r.Existing? ==>
                && table == old(table) && Matches(r.command, d.deviceId, d.idemKey)
                && exists x :: x in table && table[x] == r.command
    {
      if fault == Events.FailsBefore {
        return CreateFailed;
      }
      if x :| x in table && Matches(table[x], d.deviceId, d.idemKey) {
        return if fault == Events.NoFault then Existing(table[x]) else CreateFailed;
      }
      var c := Pend(id, d, now);
      table := table[id := c];
      r := if fault == Events.NoFault then Created(c) else CreateFailed;
    }

    /** Picks the oldest claimable row that is not locked, as often as the limit allows. */
    method FetchPendingCommands(deviceId: string, limit: int, now: int, locked: set<string>, fault: Fault)
      returns (ids: seq<string>)
      modifies this
      ensures MayClaim(old(table), deviceId, limit, now, locked, ids)
      ensures table == if fault == Events.FailsBefore then old(table) else MarkDelivered(old(table), ids, now)
    {
      ids := [];
      while |ids| < EffectiveLimit(limit) && Open(deviceId, now, locked, ids) != {}
        invariant table == old(table) && |ids| <= EffectiveLimit(limit)
        invariant forall i, j :: 0 <= i < j < |ids| ==> ids[i] != ids[j]
        invariant forall id :: id in ids ==> id in table && id !in locked && Claimable(table[id], deviceId, now)
        invariant forall a, b :: a in ids && b in Open(deviceId, now, locked, ids) ==>
                    table[a].createdAt <= table[b].createdAt
        decreases EffectiveLimit(limit) - |ids|
      {
        var open := Open(deviceId, now, locked, ids);
        OldestExists(table, open);
        var oldest :| oldest in open && forall x :: x in open ==> table[oldest].createdAt <= table[x].createdAt;
        ids := ids + [oldest];
      }
      assert forall id :: id in table && id !in locked && Claimable(table[id], deviceId, now) && id !in ids ==>
               id in Open(deviceId, now, locked, ids);
      if fault != Events.FailsBefore {
        table := MarkDelivered(table, ids, now);
      }
    }

    function Open(deviceId: string, now: int, locked: set<string>, taken: seq<string>): set<string>
      reads this
    {
      set id | id in table && id !in locked && id !in taken && Claimable(table[id], deviceId, now)
    }

    method Transition(id: string, to: CommandState, message: string, now: int, fault: Fault) returns (r: MoveResult)
      modifies this
      ensures table == if fault == Events.FailsBefore then old(table)
                       else TransitionCommand(old(table), id, to, message, now).1
      ensures r == if to != Pending && fault != Events.NoFault then MoveFailed
                   else TransitionCommand(old(table), id, to, message, now).0
      ensures r == Moved ==>
                && id in table && table[id].state == to
                && table[id].message == if message == "" then old(table)[id].message else message
    {
      if to == Pending {
        return InvalidTransition;
      }
      if fault == Events.FailsBefore {
        return MoveFailed;
      }
      if id !in table {
        return if fault == Events.NoFault then NotFound else MoveFailed;
      }
      if table[id].state !in Sources(to) {
        return if fault == Events.NoFault then InvalidTransition else MoveFailed;
      }
      table := table[id := Move(table[id], to, message, now)];
      r := if fault == Events.NoFault then Moved else MoveFailed;
    }

    method Expire(now: int, fault: Fault) returns (n: nat)
      modifies this
      ensures table == if fault == Events.FailsBefore then old(table) else ExpireCommands(old(table), now)
      ensures n == if fault == Events.NoFault then |OverdueIds(old(table), now)| else 0
    {
      n := 0;
      if fault != Events.FailsBefore {
        n := if fault == Events.NoFault then |OverdueIds(table, now)| else 0;
        table := ExpireCommands(table, now);
      }
    }
  }

  lemma {:induction false} OldestExists(t: Table, ids: set<string>)
    requires ids != {} && forall id :: id in ids ==> id in t
    ensures exists x :: x in ids && forall y :: y in ids ==> t[x].createdAt <= t[y].createdAt
    decreases |ids|
  {
    var x :| x in ids;
    var rest := ids - {x};
    if rest != {} {
      OldestExists(t, rest);
      var m :| m in rest && forall y :: y in rest ==> t[m].createdAt <= t[y].createdAt;
      var oldest := if t[x].createdAt <= t[m].createdAt then x else m;
      forall y | y in ids ensures t[oldest].createdAt <= t[y].createdAt {
        assert y == x || y in rest;
      }
    } else {
      assert ids == {x};
    }
  }

  datatype Outcome =
    Invalid | Failure | Replayed(command: Command) | Enqueued(command: Command) | Dispatched | Undispatched

  function DispatchSteps(s: State, at: int, id: string, sentAt: int, sent: Sent, message: string, fault: Fault): State {
    Apply(Apply(s, Send(at, id)), Settle(sentAt, id, sent, message, fault)).(now := sentAt)
  }

  /** The owner of a device, as the store reports it. */
  datatype Lookup = Unknown | LookupFailed | OwnedBy(provider: ProviderName)

  /** The refusals that come before anything is written. */
  function Refusal(d: Draft, payloadIsJson: bool, owner: Lookup, senders: set<ProviderName>): Option<Outcome> {
    if d.kind.OtherCommand? || (d.payload != "" && !payloadIsJson) || owner.Unknown? then Some(Invalid)
    else if owner.LookupFailed? then Some(Failure)
    else if owner.provider != GuardianEdge && owner.provider !in senders then Some(Invalid)
    else None
  }

  class Service {
    const store: Store
    const senders: set<ProviderName>
    var counters: Counters
    ghost var polled: seq<string>
    ghost var toSend: set<string>
    ghost var awaiting: set<string>
    ghost var sends: seq<string>
    ghost var now: int

    ghost function Snapshot(): State
      reads this, store
    {
      State(store.table, polled, toSend, awaiting, sends, counters, now)
    }

    constructor (store: Store, senders: set<ProviderName>)
      ensures this.store == store && this.senders == senders
      ensures store.table == map[] ==> Snapshot() == START
    {
      this.store, this.senders := store, senders;
      counters := Counters(0, 0, 0, 0, 0);
      polled, toSend, awaiting, sends, now := [], {}, {}, [], 0;
    }

    method Tell(to: CommandState, more: nat, failures: nat)
      modifies this`counters
      ensures counters == Count(old(counters), to, more).(failures := old(counters).failures + failures)
    {
      counters := Count(counters, to, more).(failures := counters.failures + failures);
    }

    /** Validates, enqueues, and dispatches at once when the device's provider takes
        commands. A replayed command is returned as it is. */
    method CreateCommand(d: Draft, payloadIsJson: bool, owner: Lookup, id: string, at: int, fault: Fault,
                         sentAt: int, sent: Sent, message: string, settleFault: Fault) returns (r: Outcome)
      requires id !in store.table
      modifies this, store
      ensures var refusal := Refusal(d, payloadIsJson, owner, senders);
              if refusal.Some? then r == refusal.value && Snapshot() == old(Snapshot())
              else r.Replayed? || r.Enqueued? || r.Dispatched? || r.Undispatched? || r.Failure?
      ensures r == Invalid <==>
                || d.kind.OtherCommand? || (d.payload != "" && !payloadIsJson) || owner.Unknown?
                || (owner.OwnedBy? && owner.provider != GuardianEdge && owner.provider !in senders)
      ensures owner.LookupFailed? && r != Invalid ==> r == Failure && Snapshot() == old(Snapshot())
      ensures Refusal(d, payloadIsJson, owner, senders).None? && fault == Events.NoFault ==>
                (r.Replayed? <==> KeyTaken(old(store.table), d.deviceId, d.idemKey))
      ensures r.Replayed? ==>
                && Matches(r.command, d.deviceId, d.idemKey) && Snapshot() == old(Snapshot()).(now := at)
                && exists x :: x in store.table && store.table[x] == r.command
      ensures r.Enqueued? ==>
                && r.command == Pend(id, d, at) && owner == OwnedBy(GuardianEdge)
                && Snapshot() == CreateStep(old(Snapshot()), at, id, d, false, fault).(now := at)
      ensures r.Dispatched? || r.Undispatched? ==>
                && owner.OwnedBy? && owner.provider in senders
                && Snapshot() == DispatchSteps(CreateStep(old(Snapshot()), at, id, d, true, fault),
                                               at, id, sentAt, sent, message, settleFault)
      ensures r.Failure? && owner.OwnedBy? ==>
                Snapshot() == CreateStep(old(Snapshot()), at, id, d, false, fault).(now := at)
                && fault != Events.NoFault
    {
      var refusal := Refusal(d, payloadIsJson, owner, senders);
      if refusal.Some? {
        return refusal.value;
      }
      var hasSender := owner.provider in senders;
      var created := Enqueue(d, id, at, hasSender, fault);
      match created {
        case CreateFailed =>
          return Failure;
        case Existing(c) =>
          return Replayed(c);
        case Created(c) =>
          if !hasSender {
            return Enqueued(c);
          }
          var ok := Dispatch(id, at, sentAt, sent, message, settleFault);
          return if ok then Dispatched else Undispatched;
      }
    }

    method Enqueue(d: Draft, id: string, at: int, hasSender: bool, fault: Fault) returns (r: CreateResult)
      requires id !in store.table
      modifies this, store
      ensures Snapshot() == CreateStep(old(Snapshot()), at, id, d, hasSender, fault).(now := at)
      ensures r.CreateFailed? <==> fault != Events.NoFault
      ensures r.Created? ==> !KeyTaken(old(store.table), d.deviceId, d.idemKey) && r.command == Pend(id, d, at)
      ensures r.Existing? ==>
                && KeyTaken(old(store.table), d.deviceId, d.idemKey)
                && store.table == old(store.table) && Snapshot() == old(Snapshot()).(now := at)
                && Matches(r.command, d.deviceId, d.idemKey)
                && exists x :: x in store.table && store.table[x] == r.command
    {
      now := at;
      r := store.CreateCommand(id, d, at, fault);
      if r.Created? {
        counters := counters.(created := counters.created + 1);
        if hasSender {
          toSend := toSend + {id};
        }
      }
    }

    /** Hands the command to its sender and records the outcome. */
    method Dispatch(id: string, at: int, sentAt: int, sent: Sent, message: string, fault: Fault) returns (ok: bool)
      modifies this, store
      ensures Snapshot() == DispatchSteps(old(Snapshot()), at, id, sentAt, sent, message, fault)
      ensures ok <==> fault == Events.NoFault
                      && TransitionCommand(old(store.table), id, Target(sent), message, sentAt).0 == Moved
      ensures id in old(store.table) && old(store.table[id].state) == Pending && fault == Events.NoFault ==>
                (ok <==> sent in {SendError, SentState(Delivered), SentState(Failed)})
    {
      toSend, sends := toSend - {id}, sends + [id];
      awaiting := awaiting + {id};
      assert Snapshot() == Apply(old(Snapshot()), Send(at, id));
      awaiting := awaiting - {id};
      now := sentAt;
      var to := if sent == SendError then Failed else sent.state;
      var r := store.Transition(id, to, message, sentAt, fault);
      if r != Moved {
        return false;
      }
      Tell(to, 1, if sent == SendError then 1 else 0);
      return true;
    }

    method PollCommands(deviceId: string, limit: int, at: int, locked: set<string>, fault: Fault)
      returns (ids: seq<string>, ok: bool)
      modifies this, store
      ensures MayClaim(old(store.table), deviceId, limit, at, locked, ids)
      ensures Snapshot() == PollStep(old(Snapshot()), at, ids, fault).(now := at)
      ensures ok <==> fault == Events.NoFault
    {
      now := at;
      ids := store.FetchPendingCommands(deviceId, limit, at, locked, fault);
      if fault != Events.NoFault {
        return ids, false;
      }
      polled := polled + ids;
      for i := 0 to |ids|
        invariant counters == Count(old(counters), Delivered, i)
        modifies this`counters
      {
        Tell(Delivered, 1, 0);
      }
      ok := true;
    }

    method ReportResult(id: string, good: bool, message: string, at: int, fault: Fault) returns (r: MoveResult)
      modifies this, store
      ensures Snapshot() ==
              var to := if good then Acknowledged else Failed;
              MoveStep(old(Snapshot()), at, id, to, message, !good, fault).(now := at)
      ensures r == Moved <==>
              && fault == Events.NoFault && id in old(store.table)
              && CanTransition(old(store.table[id].state), if good then Acknowledged else Failed)
      ensures r == if fault != Events.NoFault then MoveFailed
                   else TransitionCommand(old(store.table), id, if good then Acknowledged else Failed, message, at).0
    {
      now := at;
      var to := if good then Acknowledged else Failed;
      r := store.Transition(id, to, message, at, fault);
      if r == Moved {
        Tell(to, 1, if good then 0 else 1);
      }
    }

    /** One tick of the reaper. */
    method ReapOnce(at: int, fault: Fault)
      modifies this, store
      ensures Snapshot() == ReapStep(old(Snapshot()), at, fault).(now := at)
    {
      now := at;
      var n := store.Expire(at, fault);
      for i := 0 to n
        invariant counters == Count(old(counters), Failed, i).(failures := old(counters).failures + i)
        modifies this`counters
      {
        Tell(Failed, 1, 1);
      }
    }
  }

  /** The endpoints a device's results come in through. */
  class Api {
    const service: Service

    constructor (service: Service)
      ensures this.service == service
    {
      this.service := service;
    }

    /** `body` is the decoded outcome and message, if it decodes. */
    method PostCommandResult(id: string, body: Option<(bool, string)>, at: int, fault: Fault) returns (status: int)
      modifies service, service.store
      ensures body.None? ==> status == 400 && service.Snapshot() == old(service.Snapshot())
      ensures body.Some? ==>
                var (good, message) := (body.value.0, body.value.1);
                var to := if good then Acknowledged else Failed;
                && service.Snapshot()
                   == MoveStep(old(service.Snapshot()), at, id, to, message, !good, fault).(now := at)
                && (fault == Events.NoFault ==>
                      status == ResultStatus(TransitionCommand(old(service.store.table), id, to, message, at).0))
                && (fault != Events.NoFault ==> status == 500)
                && (fault == Events.NoFault ==>
                      status == if id !in old(service.store.table) then 404
                                else if old(service.store.table[id].state) == Delivered
                                        || (!good && old(service.store.table[id].state) == Pending) then 200
                                else 409)
    {
      if body.None? {
        return 400;
      }
      var r := service.ReportResult(id, body.value.0, body.value.1, at, fault);
      status := ResultStatus(r);
    }
  }
}

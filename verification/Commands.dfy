/** The cloud-to-edge command lifecycle: the commands table, the service over it, and
    everything that can touch it at once. */
module Commands {
  import opened Wrappers
  import opened Domain
  import Events

  type Fault = Events.Fault

  datatype Command = Command(
    id: string,
    deviceId: string,
    kind: CommandType,
    payload: string,
    idemKey: string,
    state: CommandState,
    message: string,
    createdAt: int,
    deliveredAt: Option<int>,
    completedAt: Option<int>,
    expiresAt: int)

  type Table = map<string, Command>

  // ---- The statements ---------------------------------------------------------------------

  predicate Matches(c: Command, deviceId: string, idemKey: string) {
    idemKey != "" && c.deviceId == deviceId && c.idemKey == idemKey
  }

  predicate KeyTaken(t: Table, deviceId: string, idemKey: string) {
    exists id :: id in t && Matches(t[id], deviceId, idemKey)
  }

  /** What a caller asks to be created. */
  datatype Draft = Draft(deviceId: string, kind: CommandType, payload: string, idemKey: string, expiresAt: int)

  function Pend(id: string, d: Draft, now: int): Command {
    Command(id, d.deviceId, d.kind, if d.payload == "" then "{}" else d.payload, d.idemKey, Pending, "",
            now, None, None, d.expiresAt)
  }

  /** `INSERT ... ON CONFLICT (device_id, idempotency_key) WHERE idempotency_key <> ''`. */
  function InsertCommand(t: Table, id: string, d: Draft, now: int): Table {
    if KeyTaken(t, d.deviceId, d.idemKey) then t else t[id := Pend(id, d, now)]
  }

  function EffectiveLimit(limit: int): nat {
    if limit <= 0 || limit > 50 then 10 else limit
  }

  predicate Claimable(c: Command, deviceId: string, now: int) {
    c.deviceId == deviceId && c.state == Pending && c.expiresAt > now
  }

  /** The rows a poll may claim: of the claimable ones nobody else has locked, the oldest,
      up to the limit. The statement does not promise an order among them. */
  ghost predicate MayClaim(t: Table, deviceId: string, limit: int, now: int, locked: set<string>, ids: seq<string>) {
    && (forall i, j :: 0 <= i < j < |ids| ==> ids[i] != ids[j])
    && |ids| <= EffectiveLimit(limit)
    && (forall id :: id in ids ==> id in t && id !in locked && Claimable(t[id], deviceId, now))
    && (forall id :: id in t && id !in locked && Claimable(t[id], deviceId, now) && id !in ids ==>
          |ids| == EffectiveLimit(limit) && forall c :: c in ids && c in t ==> t[c].createdAt <= t[id].createdAt)
  }

  function MarkDelivered(t: Table, ids: seq<string>, now: int): Table {
    map id | id in t :: if id in ids then t[id].(state := Delivered, deliveredAt := Some(now)) else t[id]
  }

  /** The source states of a move, as the statement lists them. */
  function Sources(to: CommandState): set<CommandState> {
    match to
    case Delivered => {Pending}
    case Acknowledged => {Delivered}
    case Failed => {Pending, Delivered}
    case Pending => {}
  }

  datatype MoveResult = Moved | NotFound | InvalidTransition | MoveFailed

  function Move(c: Command, to: CommandState, message: string, now: int): Command {
    c.(state := to,
       message := if message != "" then message else c.message,
       deliveredAt := if to == Delivered then Some(now) else c.deliveredAt,
       completedAt := if to == Acknowledged || to == Failed then Some(now) else c.completedAt)
  }

  function TransitionCommand(t: Table, id: string, to: CommandState, message: string, now: int): (MoveResult, Table) {
    if to == Pending then (InvalidTransition, t)
    else if id !in t then (NotFound, t)
    else if t[id].state !in Sources(to) then (InvalidTransition, t)
    else (Moved, t[id := Move(t[id], to, message, now)])
  }

  /** What the endpoint answers to a reported result. */
  function ResultStatus(r: MoveResult): int {
    match r
    case Moved => 200
    case NotFound => 404
    case InvalidTransition => 409
    case MoveFailed => 500
  }

  predicate Overdue(c: Command, now: int) {
    (c.state == Pending || c.state == Delivered) && c.expiresAt <= now
  }

  const EXPIRED := "expired before completion"

  function ExpireCommands(t: Table, now: int): Table {
    map id | id in t ::
      if Overdue(t[id], now) then t[id].(state := Failed, message := EXPIRED, completedAt := Some(now)) else t[id]
  }

  /** The lists in the statement are exactly the state machine. */
  lemma SourcesAreTransitions(from: CommandState, to: CommandState)
    ensures from in Sources(to) <==> CanTransition(from, to)
  {
  }

  // ---- What can happen, in any order ----------------------------------------------------------

  /** One atomic step. `at` is the database clock; a fault can lose a statement or only
      its answer. */
  datatype Step =
    | Create(at: int, id: string, draft: Draft, pushed: bool, fault: Fault)
    | Send(at: int, id: string)
    | Settle(at: int, id: string, sent: Sent, message: string, fault: Fault)
    | Poll(at: int, deviceId: string, limit: int, locked: set<string>, ids: seq<string>, fault: Fault)
    | Report(at: int, id: string, ok: bool, message: string, fault: Fault)
    | Reap(at: int, fault: Fault)

  datatype Counters = Counters(created: nat, delivered: nat, acknowledged: nat, failed: nat, failures: nat)

  function Count(n: Counters, to: CommandState, more: nat): Counters {
    match to
    case Delivered => n.(delivered := n.delivered + more)
    case Acknowledged => n.(acknowledged := n.acknowledged + more)
    case Failed => n.(failed := n.failed + more)
    case Pending => n
  }

  /** The table; the ids handed out by polls and given to senders so far; the commands a
      service call is about to send, and those it waits on; the counters. */
  datatype State = State(
    table: Table,
    polled: seq<string>,
    toSend: set<string>,
    awaiting: set<string>,
    sends: seq<string>,
    counters: Counters,
    now: int)

  const START := State(map[], [], {}, {}, [], Counters(0, 0, 0, 0, 0), 0)

  function Target(sent: Sent): CommandState {
    if sent == SendError then Failed else sent.state
  }

  function CreateStep(s: State, at: int, id: string, d: Draft, pushed: bool, fault: Fault): State {
    if fault == Events.FailsBefore || KeyTaken(s.table, d.deviceId, d.idemKey) then s
    else
      var s' := s.(table := InsertCommand(s.table, id, d, at));
      if fault != Events.NoFault then s'
      else
        s'.(counters := s.counters.(created := s.counters.created + 1),
            toSend := if pushed then s.toSend + {id} else s.toSend)
  }

  /** A move by a dispatch or a report. Only a failure known as one counts as such. */
  function MoveStep(
    s: State, at: int, id: string, to: CommandState, message: string, failure: bool, fault: Fault): State
  {
    var (r, t) := TransitionCommand(s.table, id, to, message, at);
    if fault == Events.FailsBefore || r != Moved then s
    else
      var s' := s.(table := t);
      if fault != Events.NoFault then s'
      else
        var n := Count(s.counters, to, 1);
        s'.(counters := if failure then n.(failures := n.failures + 1) else n)
  }

  function PollStep(s: State, at: int, ids: seq<string>, fault: Fault): State {
    if fault == Events.FailsBefore then s
    else
      var s' := s.(table := MarkDelivered(s.table, ids, at));
      if fault != Events.NoFault then s'
      else s'.(polled := s.polled + ids, counters := Count(s.counters, Delivered, |ids|))
  }

  function OverdueIds(t: Table, now: int): set<string> {
    set id | id in t && Overdue(t[id], now)
  }

  function ReapStep(s: State, at: int, fault: Fault): State {
    if fault == Events.FailsBefore then s
    else
      var s' := s.(table := ExpireCommands(s.table, at));
      if fault != Events.NoFault then s'
      else
        var n := |OverdueIds(s.table, at)|;
        s'.(counters := Count(s.counters, Failed, n).(failures := s.counters.failures + n))
  }

  /** The database clock does not go back, ids are fresh, and polls claim what they may;
      a step that would not is no step. */
  ghost predicate Enabled(s: State, step: Step) {
    && s.now <= step.at
    && match step
       case Create(_, id, _, _, _) => id !in s.table
       case Send(_, id) => id in s.toSend
       case Settle(_, id, _, _, _) => id in s.awaiting
       case Poll(at, deviceId, limit, locked, ids, _) => MayClaim(s.table, deviceId, limit, at, locked, ids)
       case _ => true
  }

  function Apply(s: State, step: Step): State {
    match step
    case Create(at, id, d, pushed, fault) => CreateStep(s, at, id, d, pushed, fault)
    case Send(_, id) =>
      s.(toSend := s.toSend - {id}, awaiting := s.awaiting + {id}, sends := s.sends + [id])
    case Settle(at, id, sent, message, fault) =>
      MoveStep(s.(awaiting := s.awaiting - {id}), at, id, Target(sent), message, sent == SendError, fault)
    case Poll(at, _, _, _, ids, fault) => PollStep(s, at, ids, fault)
    case Report(at, id, ok, message, fault) =>
      MoveStep(s, at, id, if ok then Acknowledged else Failed, message, !ok, fault)
    case Reap(at, fault) => ReapStep(s, at, fault)
  }

  ghost function Next(s: State, step: Step): State {
    if Enabled(s, step) then Apply(s, step).(now := step.at) else s
  }

  ghost function Run(s: State, steps: seq<Step>): State
    decreases |steps|
  {
    if steps == [] then s else Run(Next(s, steps[0]), steps[1..])
  }

  // ---- What every step does to a command -----------------------------------------------------

  predicate SameOrder(c: Command, c': Command) {
    && c'.id == c.id && c'.deviceId == c.deviceId && c'.kind == c.kind && c'.payload == c.payload
    && c'.idemKey == c.idemKey && c'.createdAt == c.createdAt && c'.expiresAt == c.expiresAt
  }

  /** Untouched, or moved along the state machine at the given time. */
  predicate Evolves(c: Command, c': Command, now: int) {
    || c' == c
    || (&& SameOrder(c, c') && CanTransition(c.state, c'.state)
        && c'.deliveredAt == (if c'.state == Delivered then Some(now) else c.deliveredAt)
        && c'.completedAt == (if Terminal(c'.state) then Some(now) else c.completedAt))
  }

  lemma MoveEvolves(
      s: State, at: int, moved: string, to: CommandState, message: string, failure: bool, fault: Fault, id: string)
    requires id in s.table
    ensures var t := MoveStep(s, at, moved, to, message, failure, fault).table;
            id in t && Evolves(s.table[id], t[id], at)
  {
  }

  lemma StepEvolves(s: State, step: Step, id: string)
    requires id in s.table
    ensures id in Next(s, step).table && Evolves(s.table[id], Next(s, step).table[id], Next(s, step).now)
  {
    match step
    case Settle(at, moved, sent, message, fault) =>
      MoveEvolves(s.(awaiting := s.awaiting - {moved}), at, moved, Target(sent), message, sent == SendError, fault, id);
    case Report(at, moved, ok, message, fault) =>
      MoveEvolves(s, at, moved, if ok then Acknowledged else Failed, message, !ok, fault, id);
    case _ =>
  }

  lemma StepCreates(s: State, step: Step, id: string)
    requires id !in s.table && id in Next(s, step).table
    ensures step.Create? && step.id == id && Next(s, step).table[id] == Pend(id, step.draft, step.at)
    ensures s.now <= step.at == Next(s, step).now && !KeyTaken(s.table, step.draft.deviceId, step.draft.idemKey)
  {
  }

  /** Reaping changes exactly the commands that are not finished and whose time is up, and
      leaves none of those. */
  lemma ReapIsExact(t: Table, now: int, id: string)
    requires id in t
    ensures var t' := ExpireCommands(t, now);
            && id in t'
            && (t'[id] != t[id] <==> !Terminal(t[id].state) && t[id].expiresAt <= now)
            && (Terminal(t'[id].state) || t'[id].expiresAt > now)
            && (t'[id] != t[id] ==>
                  t'[id].state == Failed && t'[id].completedAt == Some(now) && t'[id].message == EXPIRED)
  {
  }
}

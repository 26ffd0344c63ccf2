/** What holds of the command lifecycle in every run. */
module CommandsTheory {
  import opened Wrappers
  import opened Domain
  import opened Commands
  import Events

  // ---- Each command ---------------------------------------------------------------------

  /** The times say what the state says, and are in order. */
  predicate WellTimed(c: Command, now: int) {
    && (c.completedAt.Some? <==> Terminal(c.state))
    && (c.state == Pending ==> c.deliveredAt.None?)
    && (c.state == Delivered || c.state == Acknowledged ==> c.deliveredAt.Some?)
    && c.createdAt <= now
    && (c.deliveredAt.Some? ==> c.createdAt <= c.deliveredAt.value <= now)
    && (c.completedAt.Some? ==>
          && c.createdAt <= c.completedAt.value <= now
          && (c.deliveredAt.Some? ==> c.deliveredAt.value <= c.completedAt.value))
  }

  lemma EvolvingKeepsTimes(c: Command, c': Command, before: int, now: int)
    requires WellTimed(c, before) && before <= now && Evolves(c, c', now)
    ensures WellTimed(c', now)
  {
  }

  ghost predicate TableOk(s: State) {
    forall id :: id in s.table ==> s.table[id].id == id && WellTimed(s.table[id], s.now)
  }

  lemma StepKeepsTable(s: State, step: Step)
    requires TableOk(s)
    ensures TableOk(Next(s, step))
  {
    var s' := Next(s, step);
    forall id | id in s'.table ensures s'.table[id].id == id && WellTimed(s'.table[id], s'.now) {
      if id in s.table {
        StepEvolves(s, step, id);
        EvolvingKeepsTimes(s.table[id], s'.table[id], s.now, s'.now);
      } else {
        StepCreates(s, step, id);
      }
    }
  }

  /** The states a command goes through, as the successive tables show them. */
  ghost function Path(s: State, steps: seq<Step>, id: string): seq<CommandState>
    decreases |steps|
  {
    if steps == [] then (if id in s.table then [s.table[id].state] else [])
    else
      var rest := Path(Next(s, steps[0]), steps[1..], id);
      if id in s.table && (rest == [] || rest[0] != s.table[id].state) then [s.table[id].state] + rest else rest
  }

  predicate LegalPath(p: seq<CommandState>) {
    forall i :: 0 < i < |p| ==> CanTransition(p[i - 1], p[i])
  }

  lemma {:induction false} PathsAreLegal(s: State, steps: seq<Step>, id: string)
    requires TableOk(s)
    ensures LegalPath(Path(s, steps, id))
    ensures id in s.table ==> Path(s, steps, id) != [] && Path(s, steps, id)[0] == s.table[id].state
    ensures id !in s.table && Path(s, steps, id) != [] ==> Path(s, steps, id)[0] == Pending
    decreases |steps|
  {
    if steps != [] {
      StepKeepsTable(s, steps[0]);
      PathsAreLegal(Next(s, steps[0]), steps[1..], id);
      if id in s.table {
        StepEvolves(s, steps[0], id);
      } else if id in Next(s, steps[0]).table {
        StepCreates(s, steps[0], id);
      }
    }
  }

  /** The delivery time is set iff the command ever was delivered. */
  lemma {:induction false} DeliveredAtTellsThePath(s: State, steps: seq<Step>, id: string)
    requires TableOk(s) && id in Run(s, steps).table
    ensures Run(s, steps).table[id].deliveredAt.Some? <==>
            Delivered in Path(s, steps, id) || (id in s.table && s.table[id].deliveredAt.Some?)
    decreases |steps|
  {
    if steps != [] {
      var s' := Next(s, steps[0]);
      StepKeepsTable(s, steps[0]);
      DeliveredAtTellsThePath(s', steps[1..], id);
      PathsAreLegal(s', steps[1..], id);
      if id in s.table {
        StepEvolves(s, steps[0], id);
        assert WellTimed(s.table[id], s.now);
      } else if id in s'.table {
        StepCreates(s, steps[0], id);
      }
    }
  }

  function Rank(st: CommandState): nat {
    match st
    case Pending => 0
    case Delivered => 1
    case _ => 2
  }

  lemma {:induction false} RankGrows(p: seq<CommandState>, i: nat)
    requires LegalPath(p) && i < |p|
    ensures Rank(p[i]) >= i
  {
    if i > 0 {
      RankGrows(p, i - 1);
      assert CanTransition(p[i - 1], p[i]);
    }
  }

  lemma LegalPathsAreFive(p: seq<CommandState>)
    requires LegalPath(p) && p != [] && p[0] == Pending
    ensures p in {[Pending], [Pending, Delivered], [Pending, Failed],
                  [Pending, Delivered, Acknowledged], [Pending, Delivered, Failed]}
  {
    RankGrows(p, |p| - 1);
    if |p| > 1 {
      assert CanTransition(p[0], p[1]);
    }
    if |p| > 2 {
      assert CanTransition(p[1], p[2]);
    }
    assert p == if |p| == 1 then [p[0]] else if |p| == 2 then [p[0], p[1]] else [p[0], p[1], p[2]];
  }

  /** In every run, every command that ever exists walks one of the five paths. */
  lemma CommandsWalkTheMachine(steps: seq<Step>, id: string)
    ensures var p := Path(START, steps, id);
            p == [] || p in {[Pending], [Pending, Delivered], [Pending, Failed],
                             [Pending, Delivered, Acknowledged], [Pending, Delivered, Failed]}
  {
    PathsAreLegal(START, steps, id);
    if Path(START, steps, id) != [] {
      LegalPathsAreFive(Path(START, steps, id));
    }
  }

  /** Terminal commands never change again, in any field. */
  lemma {:induction false} TerminalIsFinal(s: State, steps: seq<Step>, id: string)
    requires id in s.table && Terminal(s.table[id].state)
    ensures id in Run(s, steps).table && Run(s, steps).table[id] == s.table[id]
    decreases |steps|
  {
    if steps != [] {
      StepEvolves(s, steps[0], id);
      TerminalIsFinal(Next(s, steps[0]), steps[1..], id);
    }
  }

  /** A device that reports a result again, the same or another, is answered 409 and
      changes nothing, however much later. */
  lemma RepeatedResultIsRefused(
      s: State, id: string, ok: bool, message: string, at: int, steps: seq<Step>,
      ok': bool, message': string, at': int)
    requires TransitionCommand(s.table, id, if ok then Acknowledged else Failed, message, at).0 == Moved
    ensures var s' := MoveStep(s, at, id, if ok then Acknowledged else Failed, message, !ok, Events.NoFault);
            var t := Run(s', steps).table;
            var (r, t') := TransitionCommand(t, id, if ok' then Acknowledged else Failed, message', at');
            t' == t && ResultStatus(r) == 409
  {
    var s' := MoveStep(s, at, id, if ok then Acknowledged else Failed, message, !ok, Events.NoFault);
    TerminalIsFinal(s', steps, id);
  }

  // ---- Polls and sends ----------------------------------------------------------------------

  ghost predicate Distinct(ids: seq<string>) {
    forall i, j :: 0 <= i < j < |ids| ==> ids[i] != ids[j]
  }

  /** Handed out once, before its expiry, and no longer pending. */
  ghost predicate PolledOk(s: State) {
    && Distinct(s.polled)
    && (forall id :: id in s.polled ==> id in s.table && HandedOut(s.table[id]))
  }

  predicate HandedOut(c: Command) {
    c.state != Pending && c.deliveredAt.Some? && c.deliveredAt.value < c.expiresAt
  }

  lemma DistinctAppend(a: seq<string>, b: seq<string>)
    requires Distinct(a) && Distinct(b) && forall id :: id in a ==> id !in b
    ensures Distinct(a + b)
  {
    forall i, j | 0 <= i < j < |a + b| ensures (a + b)[i] != (a + b)[j] {
      assert i < |a| ==> a[i] in a;
      assert j >= |a| ==> b[j - |a|] in b;
    }
  }

  /** Only a poll adds to what polls handed out, and then only commands it just claimed. */
  lemma PollHandsOut(s: State, step: Step)
    ensures var s' := Next(s, step);
            || s'.polled == s.polled
            || (&& step.Poll? && s'.polled == s.polled + step.ids && Distinct(step.ids)
                && forall id :: id in step.ids ==>
                     && id in s.table && s.table[id].state == Pending && s.table[id].deviceId == step.deviceId
                     && id in s'.table && HandedOut(s'.table[id]))
  {
  }

  lemma StepKeepsPolled(s: State, step: Step)
    requires PolledOk(s)
    ensures PolledOk(Next(s, step))
  {
    var s' := Next(s, step);
    PollHandsOut(s, step);
    if s'.polled != s.polled {
      DistinctAppend(s.polled, step.ids);
    }
    forall id | id in s'.polled ensures id in s'.table && HandedOut(s'.table[id]) {
      if id in s.polled {
        StepEvolves(s, step, id);
      }
    }
  }

  /** Every command is given to its sender at most once. */
  ghost predicate SendsOk(s: State) {
    && Distinct(s.sends)
    && (forall id :: id in s.toSend ==> id in s.table && id !in s.sends)
    && (forall id :: id in s.sends ==> id in s.table)
  }

  lemma StepKeepsSends(s: State, step: Step)
    requires SendsOk(s)
    ensures SendsOk(Next(s, step))
  {
    var s' := Next(s, step);
    forall id | id in s.table ensures id in s'.table {
      StepEvolves(s, step, id);
    }
    if step.Send? && s'.sends != s.sends {
      DistinctAppend(s.sends, [step.id]);
    }
  }

  // ---- Idempotent creation --------------------------------------------------------------------

  ghost predicate KeysUnique(t: Table) {
    forall a, b :: a in t && b in t && a != b ==> !Matches(t[a], t[b].deviceId, t[b].idemKey)
  }

  lemma StepKeepsKeys(s: State, step: Step)
    requires KeysUnique(s.table)
    ensures KeysUnique(Next(s, step).table)
  {
    var t, t' := s.table, Next(s, step).table;
    forall a, b | a in t' && b in t' && a != b ensures !Matches(t'[a], t'[b].deviceId, t'[b].idemKey) {
      SameKeys(s, step, a);
      SameKeys(s, step, b);
    }
  }

  /** A command keeps its device and key; a new one has a key nobody had. */
  lemma SameKeys(s: State, step: Step, id: string)
    requires id in Next(s, step).table
    ensures id in s.table ==>
              && Next(s, step).table[id].deviceId == s.table[id].deviceId
              && Next(s, step).table[id].idemKey == s.table[id].idemKey
    ensures id !in s.table ==>
              && step.Create? && step.id == id
              && forall x :: x in s.table ==>
                   !Matches(s.table[x], Next(s, step).table[id].deviceId, Next(s, step).table[id].idemKey)
  {
    if id in s.table {
      StepEvolves(s, step, id);
    } else {
      StepCreates(s, step, id);
    }
  }

  ghost predicate Safe(s: State) {
    TableOk(s) && PolledOk(s) && SendsOk(s) && KeysUnique(s.table)
  }

  lemma {:induction false} RunsAreSafe(s: State, steps: seq<Step>)
    requires Safe(s)
    ensures Safe(Run(s, steps))
    decreases |steps|
  {
    if steps != [] {
      StepKeepsTable(s, steps[0]);
      StepKeepsPolled(s, steps[0]);
      StepKeepsSends(s, steps[0]);
      StepKeepsKeys(s, steps[0]);
      RunsAreSafe(Next(s, steps[0]), steps[1..]);
    }
  }

  /** Whatever the interleaving and whatever the database loses: times are in order and
      say what the states say, each command is returned by at most one poll and only
      before its expiry, is sent at most once, and is alone with its device and key. */
  lemma LifecycleIsSafe(steps: seq<Step>)
    ensures Safe(Run(START, steps))
  {
    RunsAreSafe(START, steps);
  }

  /** Once a command with a key exists, every later attempt to create it again leaves the
      table alone and finds that same command, and no other. */
  lemma {:induction false} RetriesFindTheOriginal(
      s: State, steps: seq<Step>, id: string, retry: Draft, freshId: string, now: int)
    requires Safe(s) && id in s.table && Matches(s.table[id], retry.deviceId, retry.idemKey)
    ensures var t := Run(s, steps).table;
            && InsertCommand(t, freshId, retry, now) == t
            && forall x :: x in t && Matches(t[x], retry.deviceId, retry.idemKey) <==> x == id
    decreases |steps|
  {
    if steps != [] {
      StepEvolves(s, steps[0], id);
      RunsAreSafe(s, [steps[0]]);
      assert Run(s, [steps[0]]) == Next(s, steps[0]);
      RetriesFindTheOriginal(Next(s, steps[0]), steps[1..], id, retry, freshId, now);
    }
  }

  /** So the command any such retry is answered with is the original: whatever the service
      returns out of the table under that device and key has the first creation's id. */
  lemma RetryReturnsTheOriginalId(s: State, steps: seq<Step>, id: string, retry: Draft, returned: Command)
    requires Safe(s) && id in s.table && Matches(s.table[id], retry.deviceId, retry.idemKey)
    requires Matches(returned, retry.deviceId, retry.idemKey)
    requires exists x :: x in Run(s, steps).table && Run(s, steps).table[x] == returned
    ensures KeyTaken(Run(s, steps).table, retry.deviceId, retry.idemKey) && returned.id == id
    ensures SameOrder(s.table[id], returned)
  {
    var t := Run(s, steps).table;
    RetriesFindTheOriginal(s, steps, id, retry, id, 0);
    RunsAreSafe(s, steps);
    OrdersAreKept(s, steps, id);
    var x :| x in t && t[x] == returned;
    assert x == id;
  }

  lemma {:induction false} OrdersAreKept(s: State, steps: seq<Step>, id: string)
    requires id in s.table
    ensures id in Run(s, steps).table && SameOrder(s.table[id], Run(s, steps).table[id])
    decreases |steps|
  {
    if steps != [] {
      StepEvolves(s, steps[0], id);
      OrdersAreKept(Next(s, steps[0]), steps[1..], id);
    }
  }

  // ---- The counters ------------------------------------------------------------------------------

  function InState(t: Table, st: CommandState): set<string> {
    set id | id in t && t[id].state == st
  }

  function EverDelivered(t: Table): set<string> {
    set id | id in t && t[id].deliveredAt.Some?
  }

  predicate NoStorageError(step: Step) {
    match step
    case Create(_, _, _, _, fault) => fault == Events.NoFault
    case Send(_, _) => true
    case Settle(_, _, _, _, fault) => fault == Events.NoFault
    case Poll(_, _, _, _, _, fault) => fault == Events.NoFault
    case Report(_, _, _, _, fault) => fault == Events.NoFault
    case Reap(_, fault) => fault == Events.NoFault
  }

  /** Does a sender here fail a command by naming the state, without an error? */
  ghost predicate Silent(s: State, step: Step) {
    && Enabled(s, step) && step.Settle? && step.sent == SentState(Failed)
    && step.id in s.table && !Terminal(s.table[step.id].state)
  }

  ghost function Silents(s: State, steps: seq<Step>): nat
    decreases |steps|
  {
    if steps == [] then 0 else (if Silent(s, steps[0]) then 1 else 0) + Silents(Next(s, steps[0]), steps[1..])
  }

  /** What the counters should be. */
  function Tallies(t: Table): Counters {
    Counters(|t|, |EverDelivered(t)|, |InState(t, Acknowledged)|, |InState(t, Failed)|, |InState(t, Failed)|)
  }

  function WithFailures(n: Counters, more: nat): Counters {
    n.(failures := n.failures + more)
  }

  /** The counters are right, but for so many failures nobody counted. */
  ghost predicate Counted(s: State, silent: nat) {
    WithFailures(s.counters, silent) == Tallies(s.table)
  }

  function With(ids: set<string>, id: string, when: bool): set<string> {
    if when then ids + {id} else ids
  }

  /** A legal move puts its command into the set of the state it enters, and takes it out
      of no set of a terminal state. */
  lemma MoveSets(t: Table, id: string, to: CommandState, message: string, at: int)
    requires id in t && CanTransition(t[id].state, to)
    ensures var t' := t[id := Move(t[id], to, message, at)];
            && t'.Keys == t.Keys
            && EverDelivered(t') == With(EverDelivered(t), id, to == Delivered)
            && InState(t', Acknowledged) == With(InState(t, Acknowledged), id, to == Acknowledged)
            && InState(t', Failed) == With(InState(t, Failed), id, to == Failed)
  {
  }

  /** How the counters change when one command enters a state, a failure known as one. */
  function CountMove(n: Counters, to: CommandState): Counters {
    var n' := Count(n, to, 1);
    if to == Failed then n'.(failures := n.failures + 1) else n'
  }

  lemma WithSize(ids: set<string>, id: string, when: bool)
    requires when ==> id !in ids
    ensures |With(ids, id, when)| == |ids| + if when then 1 else 0
  {
  }

  lemma MoveSizes(t: Table, id: string, to: CommandState, message: string, at: int)
    requires id in t && CanTransition(t[id].state, to) && (t[id].state == Pending ==> t[id].deliveredAt.None?)
    ensures var t' := t[id := Move(t[id], to, message, at)];
            && |t'| == |t|
            && |EverDelivered(t')| == |EverDelivered(t)| + (if to == Delivered then 1 else 0)
            && |InState(t', Acknowledged)| == |InState(t, Acknowledged)| + (if to == Acknowledged then 1 else 0)
            && |InState(t', Failed)| == |InState(t, Failed)| + (if to == Failed then 1 else 0)
  {
    MoveSets(t, id, to, message, at);
    WithSize(InState(t, Acknowledged), id, to == Acknowledged);
    WithSize(InState(t, Failed), id, to == Failed);
    WithSize(EverDelivered(t), id, to == Delivered);
  }

  lemma MoveTallies(t: Table, id: string, to: CommandState, message: string, at: int)
    requires id in t && CanTransition(t[id].state, to) && (t[id].state == Pending ==> t[id].deliveredAt.None?)
    ensures Tallies(t[id := Move(t[id], to, message, at)]) == CountMove(Tallies(t), to)
  {
    MoveSizes(t, id, to, message, at);
  }

  lemma MoveCounts(s: State, at: int, id: string, to: CommandState, message: string, failure: bool, silent: nat)
    requires TableOk(s) && Counted(s, silent) && (failure ==> to == Failed)
    ensures var moved := TransitionCommand(s.table, id, to, message, at).0 == Moved;
            Counted(MoveStep(s, at, id, to, message, failure, Events.NoFault),
                    silent + if moved && to == Failed && !failure then 1 else 0)
  {
    if TransitionCommand(s.table, id, to, message, at).0 == Moved {
      SourcesAreTransitions(s.table[id].state, to);
      assert WellTimed(s.table[id], s.now);
      MoveTallies(s.table, id, to, message, at);
    }
  }

  lemma SettleCounts(s: State, at: int, id: string, sent: Sent, message: string, silent: nat)
    requires TableOk(s) && Counted(s, silent)
    ensures var unnoticed := sent == SentState(Failed) && id in s.table && !Terminal(s.table[id].state);
            Counted(Apply(s, Settle(at, id, sent, message, Events.NoFault)), silent + if unnoticed then 1 else 0)
  {
    MoveCounts(s.(awaiting := s.awaiting - {id}), at, id, Target(sent), message, sent == SendError, silent);
  }

  lemma CreateCounts(s: State, at: int, id: string, d: Draft, pushed: bool, silent: nat)
    requires Counted(s, silent) && id !in s.table
    ensures Counted(CreateStep(s, at, id, d, pushed, Events.NoFault), silent)
  {
    var t, t' := s.table, s.table[id := Pend(id, d, at)];
    assert t'.Keys == t.Keys + {id};
    assert EverDelivered(t') == EverDelivered(t);
    assert InState(t', Acknowledged) == InState(t, Acknowledged) && InState(t', Failed) == InState(t, Failed);
  }

  function Elements(ids: seq<string>): set<string> {
    set id | id in ids
  }

  lemma {:induction false} DistinctElements(ids: seq<string>)
    requires Distinct(ids)
    ensures |Elements(ids)| == |ids|
  {
    if ids != [] {
      var n := |ids| - 1;
      DistinctElements(ids[..n]);
      assert ids == ids[..n] + [ids[n]];
      assert Elements(ids) == Elements(ids[..n]) + {ids[n]};
    }
  }

  lemma PollSets(t: Table, ids: seq<string>, at: int)
    requires forall id :: id in ids ==> id in t && t[id].state == Pending
    ensures var t' := MarkDelivered(t, ids, at);
            && t'.Keys == t.Keys && EverDelivered(t') == EverDelivered(t) + Elements(ids)
            && InState(t', Acknowledged) == InState(t, Acknowledged) && InState(t', Failed) == InState(t, Failed)
  {
  }

  lemma PollCounts(s: State, at: int, ids: seq<string>, silent: nat)
    requires TableOk(s) && Counted(s, silent) && Distinct(ids)
    requires forall id :: id in ids ==> id in s.table && s.table[id].state == Pending
    ensures Counted(PollStep(s, at, ids, Events.NoFault), silent)
  {
    DistinctElements(ids);
    PollSets(s.table, ids, at);
    assert EverDelivered(s.table) !! Elements(ids);
  }

  lemma ReapSets(t: Table, at: int)
    ensures var t' := ExpireCommands(t, at);
            && t'.Keys == t.Keys && EverDelivered(t') == EverDelivered(t)
            && InState(t', Acknowledged) == InState(t, Acknowledged)
            && InState(t', Failed) == InState(t, Failed) + OverdueIds(t, at) && InState(t, Failed) !! OverdueIds(t, at)
  {
  }

  lemma ReapCounts(s: State, at: int, silent: nat)
    requires Counted(s, silent)
    ensures Counted(ReapStep(s, at, Events.NoFault), silent)
  {
    ReapSets(s.table, at);
  }

  lemma StepCounts(s: State, step: Step, silent: nat)
    requires TableOk(s) && Counted(s, silent) && NoStorageError(step)
    ensures Counted(Next(s, step), silent + if Silent(s, step) then 1 else 0)
  {
    if Enabled(s, step) {
      match step
      case Create(at, id, d, pushed, _) => CreateCounts(s, at, id, d, pushed, silent);
      case Send(_, _) =>
      case Settle(at, id, sent, message, _) => SettleCounts(s, at, id, sent, message, silent);
      case Poll(at, _, _, _, ids, _) => PollCounts(s, at, ids, silent);
      case Report(at, id, ok, message, _) =>
        MoveCounts(s, at, id, if ok then Acknowledged else Failed, message, !ok, silent);
      case Reap(at, _) => ReapCounts(s, at, silent);
    }
  }

  lemma {:induction false} RunsCount(s: State, steps: seq<Step>, silent: nat)
    requires TableOk(s) && Counted(s, silent) && forall step :: step in steps ==> NoStorageError(step)
    ensures Counted(Run(s, steps), silent + Silents(s, steps))
    decreases |steps|
  {
    if steps != [] {
      assert NoStorageError(steps[0]);
      StepKeepsTable(s, steps[0]);
      StepCounts(s, steps[0], silent);
      RunsCount(Next(s, steps[0]), steps[1..], silent + if Silent(s, steps[0]) then 1 else 0);
    }
  }

  lemma StatesPartition(t: Table)
    ensures |t| == |InState(t, Pending)| + |InState(t, Delivered)| + |InState(t, Acknowledged)| + |InState(t, Failed)|
  {
    var open := InState(t, Pending) + InState(t, Delivered);
    var ended := InState(t, Acknowledged) + InState(t, Failed);
    assert t.Keys == open + ended && open !! ended;
  }

  lemma StartCounts()
    ensures TableOk(START) && Counted(START, 0)
  {
    assert START.table.Keys == {};
    assert EverDelivered(START.table) == {} && InState(START.table, Acknowledged) == {} == InState(START.table, Failed);
  }

  /** Without storage errors: the commands created are those pending, delivered,
      acknowledged and failed; the delivered, acknowledged and failed counters are the
      commands that ever entered those states; and the failure counter misses exactly the
      failures a sender named as a state instead of an error. */
  lemma CountersConserve(steps: seq<Step>)
    requires forall step :: step in steps ==> NoStorageError(step)
    ensures var s := Run(START, steps);
            && s.counters.created == |InState(s.table, Pending)| + |InState(s.table, Delivered)|
                                   + |InState(s.table, Acknowledged)| + |InState(s.table, Failed)|
            && s.counters.delivered == |EverDelivered(s.table)|
            && s.counters.acknowledged == |InState(s.table, Acknowledged)|
            && s.counters.failed == |InState(s.table, Failed)|
            && s.counters.failures + Silents(START, steps) == s.counters.failed
  {
    StartCounts();
    RunsCount(START, steps, 0);
    StatesPartition(Run(START, steps).table);
  }

  /** The failure counter tells how many commands failed iff no sender failed one
      silently. */
  lemma FailuresAreCountedIff(steps: seq<Step>)
    requires forall step :: step in steps ==> NoStorageError(step)
    ensures var s := Run(START, steps);
            s.counters.failures == |InState(s.table, Failed)| <==> Silents(START, steps) == 0
  {
    CountersConserve(steps);
  }

  /** A sender that does report a failure as a state is not counted as one: then the
      failed commands outnumber the failure counter. */
  lemma SilentFailuresEscapeTheCounter()
    ensures var d := Draft("device", GetStatus, "", "", 10);
            var s := Run(START, [Create(1, "c", d, true, Events.NoFault), Send(2, "c"),
                                 Settle(3, "c", SentState(Failed), "", Events.NoFault)]);
            s.counters.failed == 1 && s.counters.failures == 0
  {
    var d := Draft("device", GetStatus, "", "", 10);
    var a, b := Create(1, "c", d, true, Events.NoFault), Send(2, "c");
    var c := Settle(3, "c", SentState(Failed), "", Events.NoFault);
    var s1 := Next(START, a);
    assert !KeyTaken(START.table, d.deviceId, d.idemKey);
    assert s1.table == map["c" := Pend("c", d, 1)] && s1.toSend == {"c"};
    var s2 := Next(s1, b);
    var s3 := Next(s2, c);
    assert [a, b, c][1..] == [b, c] && [b, c][1..] == [c] && [c][1..] == [];
    assert Run(s2, [c]) == Run(s3, []);
    assert Run(s1, [b, c]) == Run(s2, [c]);
    assert Run(START, [a, b, c]) == Run(s1, [b, c]);
  }
}

/** How the AlphaSense adapter turns wire alerts into events and commands into
    instructions. */
module Alerts {
  import opened Wrappers
  import opened Domain
  import opened Events
  import Retry
  import AlphaSense

  /** A decoded alert. A time is present iff it parses as RFC 3339. */
  datatype WireAlert = WireAlert(
    alertId: string,
    unitRef: string,
    category: string,
    score: real,
    raised: Option<int>,
    confirmed: Option<int>)

  datatype Problem = UnknownCategory | MissingIdentifier | ScoreOutOfRange | BadConfirmationTime

  function Normalize(a: WireAlert, received: int): Result<NormalizedEvent, Problem> {
    if a.category != "fire" && a.category != "smoke" then Err(UnknownCategory)
    else if a.alertId == "" || a.unitRef == "" then Err(MissingIdentifier)
    else if a.score < 0.0 || a.score > 100.0 then Err(ScoreOutOfRange)
    else if a.confirmed.None? then Err(BadConfirmationTime)
    else
      var raised := if a.raised.Some? then a.raised.value else a.confirmed.value;
      Ok(NormalizedEvent(a.unitRef, HazardEvent(
           a.alertId, "", AlphaSense, if a.category == "fire" then Fire else Smoke, a.score / 100.0,
           raised, a.confirmed.value, received)))
  }

  /** The alerts that normalise, in order; and what was wrong with the first that did not. */
  function Normalized(alerts: seq<WireAlert>, received: int): seq<NormalizedEvent> {
    if alerts == [] then []
    else
      var rest := Normalized(alerts[..|alerts| - 1], received);
      match Normalize(alerts[|alerts| - 1], received)
      case Ok(ne) => rest + [ne]
      case Err(_) => rest
  }

  function FirstProblem(alerts: seq<WireAlert>, received: int): Option<Problem> {
    if alerts == [] then None
    else
      var before := FirstProblem(alerts[..|alerts| - 1], received);
      if before.Some? then before
      else
        match Normalize(alerts[|alerts| - 1], received)
        case Ok(_) => None
        case Err(p) => Some(p)
  }

  datatype FetchError = RequestFailed(outcome: Retry.Outcome) | MalformedAlert(problem: Problem)

  /** What `FetchEvents` returns once its request ended: good events can come together
      with an error about a malformed one. */
  function Fetched(outcome: Retry.Outcome, alerts: seq<WireAlert>, received: int)
    : (seq<NormalizedEvent>, Option<FetchError>)
  {
    if outcome != Retry.Done then ([], Some(RequestFailed(outcome)))
    else
      match FirstProblem(alerts, received)
      case None => (Normalized(alerts, received), None)
      case Some(p) => (Normalized(alerts, received), Some(MalformedAlert(p)))
  }

  method NormalizeAll(alerts: seq<WireAlert>, received: int)
    returns (events: seq<NormalizedEvent>, firstErr: Option<Problem>)
    ensures events == Normalized(alerts, received) && firstErr == FirstProblem(alerts, received)
  {
    events, firstErr := [], None;
    for i := 0 to |alerts|
      invariant events == Normalized(alerts[..i], received) && firstErr == FirstProblem(alerts[..i], received)
    {
      assert alerts[..i + 1][..i] == alerts[..i];
      var r := Normalize(alerts[i], received);
      match r {
        case Ok(ne) => events := events + [ne];
        case Err(p) =>
          if firstErr.None? {
            firstErr := Some(p);
          }
      }
    }
    assert alerts[..|alerts|] == alerts;
  }

  /** The alerts come out of the reply that ended the request. */
  method FetchEvents(client: AlphaSense.Client, alerts: seq<WireAlert>, received: int)
    returns (events: seq<NormalizedEvent>, err: Option<FetchError>)
    requires client.Valid()
    modifies client, client.tokens
    ensures var (outcome, l) := AlphaSense.Request(client.world, true, old(client.Snapshot()));
            client.Snapshot() == l && (events, err) == Fetched(outcome, alerts, received)
  {
    var outcome := client.Do(true);
    if outcome != Retry.Done {
      return [], Some(RequestFailed(outcome));
    }
    var problem;
    events, problem := NormalizeAll(alerts, received);
    err := if problem.None? then None else Some(MalformedAlert(problem.value));
  }

  // ---- Commands ----------------------------------------------------------------------

  function Instruction(kind: CommandType): Option<string> {
    match kind
    case GetStatus => Some("status_report")
    case StartMonitoring => Some("arm")
    case StopMonitoring => Some("disarm")
    case UpdateConfig => Some("reconfigure")
    case OtherCommand(_) => None
  }

  /** The instruction posted, if any, and what comes of it. */
  method SendCommand(client: AlphaSense.Client, kind: CommandType) returns (r: Sent, instruction: Option<string>)
    requires client.Valid()
    modifies client, client.tokens
    ensures instruction == match kind
                           case GetStatus => Some("status_report")
                           case StartMonitoring => Some("arm")
                           case StopMonitoring => Some("disarm")
                           case UpdateConfig => Some("reconfigure")
                           case OtherCommand(_) => None
    ensures kind.OtherCommand? ==> r == SendError && client.Snapshot() == old(client.Snapshot())
    ensures !kind.OtherCommand? ==>
              var (outcome, l) := AlphaSense.Request(client.world, false, old(client.Snapshot()));
              client.Snapshot() == l && r == if outcome == Retry.Done then SentState(Delivered) else SendError
  {
    instruction := Instruction(kind);
    if instruction.None? {
      r := SendError;
      return;
    }
    var outcome := client.Do(false);
    r := if outcome == Retry.Done then SentState(Delivered) else SendError;
  }

  // ---- What normalising promises -------------------------------------------------------

  /** An alert that normalises is a valid event of its device, except that the adapter
      lets the zero time through and the store's validation does not. */
  lemma NormalizedIsValidIff(a: WireAlert, received: int, deviceId: string)
    requires Normalize(a, received).Ok? && deviceId != ""
    ensures var ne := Normalize(a, received).value;
            && ne.event.Key() == (AlphaSense, a.alertId) && ne.event.confirmedAt == a.confirmed.value
            && (ne.event.(deviceId := deviceId).Valid() <==> a.confirmed.value != 0)
            && ne.event.confidence * 100.0 == a.score && ne.externalDeviceId == a.unitRef
            && (a.raised.None? ==> ne.event.firstSeenAt == ne.event.confirmedAt)
            && (a.raised.Some? ==> ne.event.firstSeenAt == a.raised.value)
  {
    var score := a.score;
    assert 0.0 <= score / 100.0 <= 1.0;
  }

  /** Nothing good is lost and nothing is invented, whatever else is in the list. */
  lemma {:induction false} NormalizedIsExact(alerts: seq<WireAlert>, received: int, ne: NormalizedEvent)
    ensures ne in Normalized(alerts, received) <==> exists a :: a in alerts && Normalize(a, received) == Ok(ne)
  {
    if alerts != [] {
      var init, last := alerts[..|alerts| - 1], alerts[|alerts| - 1];
      NormalizedIsExact(init, received, ne);
      assert alerts == init + [last];
      if a :| a in alerts && Normalize(a, received) == Ok(ne) {
        assert a in init || a == last;
      }
    }
  }

  /** An error is reported iff some alert does not normalise. */
  lemma {:induction false} ProblemIffMalformed(alerts: seq<WireAlert>, received: int)
    ensures FirstProblem(alerts, received).Some? <==> exists a :: a in alerts && Normalize(a, received).Err?
  {
    if alerts != [] {
      var init, last := alerts[..|alerts| - 1], alerts[|alerts| - 1];
      ProblemIffMalformed(init, received);
      assert alerts == init + [last];
      if a :| a in alerts && Normalize(a, received).Err? {
        assert a in init || a == last;
      }
    }
  }
}

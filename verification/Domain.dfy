/** The connector's internal vocabulary. Times are nanoseconds since the first
    instant of year 1, so the zero time is 0. */
module Domain {
  import opened Wrappers

  const SECOND: int := 1_000_000_000
  const UNIX_EPOCH: int := 62_135_596_800 * SECOND

  datatype ProviderName = GuardianEdge | AlphaSense | BetaGrid | OtherProvider(name: string)

  datatype HazardType = Fire | Smoke | Fall | Intrusion | CameraTampering | OtherHazard(name: string)

  datatype HazardEvent = HazardEvent(
    dedupKey: string,
    deviceId: string,
    source: ProviderName,
    kind: HazardType,
    confidence: real,
    firstSeenAt: int,
    confirmedAt: int,
    receivedAt: int)
  {
    predicate Valid() {
      && dedupKey != "" && deviceId != ""
      && !source.OtherProvider? && !kind.OtherHazard?
      && 0.0 <= confidence <= 1.0
      && confirmedAt != 0
    }

    /** What the unique constraint of the events table compares. */
    function Key(): (ProviderName, string) {
      (source, dedupKey)
    }
  }

  datatype DeviceStatus = StatusUnknown | Online | Offline

  /** A registered device; a time it was never seen at is absent. */
  datatype Device = Device(id: string, name: string, status: DeviceStatus, version: string, lastSeen: Option<int>)

  /** What a source says about a device. Empty fields and the zero time say nothing. */
  datatype Sighting = Sighting(
    externalId: string, name: string, status: DeviceStatus, version: string, lastSeenAt: int)

  datatype CommandType = GetStatus | StartMonitoring | StopMonitoring | UpdateConfig | OtherCommand(name: string)

  datatype CommandState = Pending | Delivered | Acknowledged | Failed

  predicate CanTransition(from: CommandState, to: CommandState) {
    match from
    case Pending => to == Delivered || to == Failed
    case Delivered => to == Acknowledged || to == Failed
    case _ => false
  }

  predicate Terminal(s: CommandState) {
    s == Acknowledged || s == Failed
  }

  /** What a provider's sender answers: an error, or the state the command is now in. */
  datatype Sent = SendError | SentState(state: CommandState)
}

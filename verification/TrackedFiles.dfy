/** The tracked file and its status, as the repository's central data model declares them. */
module TrackedFiles {
  import opened Wrappers

  /** A tracked entry's uuid. Identifiers are handed out by a counter, so they never collide. */
  type Id = nat

  type Path = string

  /** Seconds on the agent's clock. */
  type Time = int

  datatype FileStatus =
    | Discovered
    | Ready
    | InQueue
    | Copying
    | Completed
    | Failed
    | Removed
    | Growing
    | ReadyToStartGrowing
    | GrowingCopy
    | WaitingForSpace
    | SpaceError
    | WaitingForNetwork

  /** Every status, in declaration order: the order statistics iterate over. */
  const ALL_STATUSES: seq<FileStatus> := [
    Discovered, Ready, InQueue, Copying, Completed, Failed, Removed, Growing,
    ReadyToStartGrowing, GrowingCopy, WaitingForSpace, SpaceError, WaitingForNetwork
  ]

  predicate IsTerminal(status: FileStatus) {
    status in {Completed, Failed, Removed}
  }

  predicate IsActive(status: FileStatus) {
    status in {Discovered, Ready, Growing, ReadyToStartGrowing, InQueue, Copying, GrowingCopy,
               WaitingForSpace, SpaceError, WaitingForNetwork}
  }

  /** What growth detection remembers about a file between two samples. */
  datatype GrowthInfo = GrowthInfo(
    previousSize: nat,
    firstSeenSize: nat,
    lastCheck: Option<Time>,
    stableSince: Option<Time>,
    rate: real)

  datatype RetryInfo = RetryInfo(scheduledAt: Time, retryAt: Time)

  datatype TrackedFile = TrackedFile(
    id: Id,
    path: Path,
    status: FileStatus,
    size: nat,
    discoveredAt: Time,
    completedAt: Option<Time>,
    failedAt: Option<Time>,
    spaceErrorAt: Option<Time>,
    retryCount: nat,
    retry: Option<RetryInfo>,
    growth: GrowthInfo)

  function NewTrackedFile(id: Id, path: Path, size: nat, now: Time): TrackedFile {
    TrackedFile(id, path, Discovered, size, now, None, None, None, 0, None,
                GrowthInfo(0, 0, None, None, 0.0))
  }

  /** The position of a status in the declaration. */
  function Position(s: FileStatus): nat {
    match s
    case Discovered => 0
    case Ready => 1
    case InQueue => 2
    case Copying => 3
    case Completed => 4
    case Failed => 5
    case Removed => 6
    case Growing => 7
    case ReadyToStartGrowing => 8
    case GrowingCopy => 9
    case WaitingForSpace => 10
    case SpaceError => 11
    case WaitingForNetwork => 12
  }

  lemma StatusAtPosition(i: nat)
    requires i < |ALL_STATUSES|
    ensures Position(ALL_STATUSES[i]) == i
  {
  }

  /** Statuses split into active and terminal ones, with nothing in both or in neither. */
  lemma ActiveIsNotTerminal(status: FileStatus)
    ensures IsActive(status) <==> !IsTerminal(status)
    ensures status in ALL_STATUSES
  {
    assert ALL_STATUSES[0] == Discovered && ALL_STATUSES[1] == Ready && ALL_STATUSES[2] == InQueue;
    assert ALL_STATUSES[3] == Copying && ALL_STATUSES[4] == Completed && ALL_STATUSES[5] == Failed;
    assert ALL_STATUSES[6] == Removed && ALL_STATUSES[7] == Growing && ALL_STATUSES[8] == ReadyToStartGrowing;
    assert ALL_STATUSES[9] == GrowingCopy && ALL_STATUSES[10] == WaitingForSpace;
    assert ALL_STATUSES[11] == SpaceError && ALL_STATUSES[12] == WaitingForNetwork;
  }
}

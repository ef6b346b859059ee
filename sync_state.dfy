/**
 * `SyncState`: the observable state of the client's backup engine: whether auto-sync is on,
 * the pass status, the counters and the photo being uploaded.
 */
module SyncStatus {
  import opened Wrappers

  datatype Status = Idle | Syncing | Paused | WaitingForNetwork | WaitingForWiFi | Error(message: string)

  const ErrorPrefix: string := "Error: "

  /** `Status.description`: a fixed text per status, and the message after "Error: " for an error. */
  function Description(s: Status): (d: string)
    ensures s.Error? ==> d == ErrorPrefix + s.message
    ensures !s.Error? ==> d != [] && d[0] != ErrorPrefix[0]
  {
    match s
    case Idle => "Idle"
    case Syncing => "Syncing..."
    case Paused => "Paused"
    case WaitingForNetwork => "Waiting for network"
    case WaitingForWiFi => "Waiting for WiFi"
    case Error(m) => ErrorPrefix + m
  }

  /** Different statuses are shown differently, so the text identifies the status. */
  lemma DescriptionInjective(a: Status, b: Status)
    requires Description(a) == Description(b)
    ensures a == b
  {
    if a.Error? && b.Error? {
      var d := Description(a);
      assert a.message == d[|ErrorPrefix|..] == b.message;
    }
  }

  /** `Status.isActive`: true for `.syncing` and nothing else. */
  function IsActive(s: Status): (b: bool)
    ensures b <==> s == Syncing
  {
    s.Syncing?
  }

  datatype SyncState = SyncState(
    isEnabled: bool,
    status: Status,
    pendingCount: int,
    uploadedCount: int,
    failedCount: int,
    totalCount: int,
    currentPhotoId: Option<string>,
    currentProgress: real)

  /** `SyncState()`: disabled, idle, every count zero, no current photo. */
  function InitialState(): (s: SyncState)
    ensures !s.isEnabled && s.status == Idle && s.currentPhotoId == None
    ensures s.pendingCount == 0 && s.uploadedCount == 0 && s.failedCount == 0 && s.totalCount == 0
    ensures s.currentProgress == 0.0
  {
    SyncState(false, Idle, 0, 0, 0, 0, None, 0.0)
  }

  /** `overallProgress`: the uploaded share of the total, 0 when there is no total. */
  function OverallProgress(s: SyncState): (p: real)
    ensures s.totalCount <= 0 ==> p == 0.0
    ensures s.totalCount > 0 ==> p * (s.totalCount as real) == s.uploadedCount as real
    ensures s.totalCount > 0 && 0 <= s.uploadedCount <= s.totalCount ==> 0.0 <= p <= 1.0
  {
    if s.totalCount <= 0 then 0.0 else (s.uploadedCount as real) / (s.totalCount as real)
  }
}

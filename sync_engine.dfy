/**
 * `SyncEngine`: the client's backup loop. A pass diffs the photo library against the upload
 * ledger, then uploads the remaining assets one by one, classifying each as uploaded, skipped
 * (already known by checksum, locally or on the server) or failed, while keeping the counters
 * of `SyncState` and a newest-first list of recent results.
 *
 * PhotoKit, the export, SHA-256 and the HTTP upload are parameters: the export and the
 * server's reply are functions of the asset, the digest a function of the bytes, and the
 * clock a value. A pause from the UI arrives between two items; `pauseBefore == Some(k)`
 * says that it arrives just before item `k` is started.
 */
module Sync {
  import opened Wrappers
  import opened PhotoModel
  import opened Checksum
  import opened UploadLedger
  import opened SyncStatus

  datatype AuthorizationStatus = NotDetermined | Restricted | Denied | Authorized | Limited

  /** Photo library access is granted, fully or for a selection. */
  predicate Permitted(auth: AuthorizationStatus) {
    auth == Authorized || auth == Limited
  }

  datatype SyncError = PhotoLibraryAccessDenied | NetworkUnavailable

  /** `SyncError.errorDescription`: a fixed text per case, and the two texts differ. */
  function ErrorDescription(e: SyncError): (d: string)
    ensures e == PhotoLibraryAccessDenied <==> d == "Photo library access denied"
    ensures e == NetworkUnavailable <==> d == "Network unavailable"
  {
    match e
    case PhotoLibraryAccessDenied => "Photo library access denied"
    case NetworkUnavailable => "Network unavailable"
  }

  /** What `exportPhotoData` yields for an asset. */
  datatype ExportedPhoto = ExportedPhoto(data: Bytes, filename: string, mimeType: string)

  /** The server's answer to an upload: the stored photo, a 409 duplicate, or any other error. */
  datatype ServerReply = Created(photo: Photo) | DuplicateOnServer | UploadFailed(description: string)

  datatype UploadResult = Success(photo: Photo) | Skipped(localIdentifier: string) | Failed(localIdentifier: string, description: string)

  /** The engine's surroundings for one run: export, digest, server and clock. */
  datatype SyncEnv = SyncEnv(
    exportData: string -> Result<ExportedPhoto, string>,
    sha256: Bytes -> Bytes,
    server: ExportedPhoto -> ServerReply,
    now: Date)

  const RecentLimit: nat := 50
  const BackgroundBatch: nat := 50

  function Min(a: int, b: int): int { if a <= b then a else b }

  // ----- The upload set -----

  /** The library's assets whose id is not in the ledger, in library order. */
  function ToUpload(library: seq<string>, uploaded: set<string>): (todo: seq<string>)
    ensures |todo| <= |library|
    ensures forall x :: x in todo <==> x in library && x !in uploaded
  {
    if library == [] then []
    else
      var last := library[|library| - 1];
      ToUpload(library[..|library| - 1], uploaded) + (if last in uploaded then [] else [last])
  }

  /**
   * Diffing against a larger ledger is diffing twice: the assets still to upload after more ids
   * have been recorded are the earlier upload set minus exactly those ids, in the same order.
   */
  lemma {:induction false} ToUploadComposes(library: seq<string>, done: set<string>, recorded: set<string>)
    ensures ToUpload(library, done + recorded) == ToUpload(ToUpload(library, done), recorded)
  {
    if library != [] {
      var n := |library| - 1;
      var pre := library[..n];
      ToUploadComposes(pre, done, recorded);
      var inner := ToUpload(library, done);
      if library[n] !in done {
        assert inner == ToUpload(pre, done) + [library[n]];
        assert inner[..|inner| - 1] == ToUpload(pre, done);
      } else {
        assert inner == ToUpload(pre, done);
      }
    }
  }

  /** A library without repeated ids gives an upload set without repeated ids. */
  lemma {:induction false} ToUploadDistinct(library: seq<string>, uploaded: set<string>)
    requires Distinct(library)
    ensures Distinct(ToUpload(library, uploaded))
  {
    if library != [] {
      var n := |library| - 1;
      ToUploadDistinct(library[..n], uploaded);
      assert library[n] !in library[..n];
    }
  }

  predicate Distinct(s: seq<string>) {
    forall i, j :: 0 <= i < j < |s| ==> s[i] != s[j]
  }

  // ----- Recent results -----

  /** `addUploadResult`: insert at the front, then drop the last entry when over the limit. */
  function PushResult(recent: seq<UploadResult>, r: UploadResult): (out: seq<UploadResult>)
    ensures |recent| <= RecentLimit ==>
      |out| == Min(|recent| + 1, RecentLimit) && out[0] == r && out[1..] == recent[..|out| - 1]
  {
    var s := [r] + recent;
    if |s| > RecentLimit then s[..|s| - 1] else s
  }

  // ----- One item -----

  /** How one asset ends, given the ledger when it is started. */
  datatype ItemOutcome = Recorded(result: UploadResult, entry: UploadedPhoto) | ItemFailed(description: string)

  /**
   * `uploadPhoto(_:)`: a failed export fails the item; a checksum the ledger already knows is
   * recorded as skipped without contacting the server; otherwise the server's reply decides:
   * created (recorded with its id), duplicate (recorded as skipped, no id) or failed.
   */
  function ItemOutcomeOf(l: Ledger, id: string, env: SyncEnv): (o: ItemOutcome)
    ensures o.Recorded? ==> o.entry.localIdentifier == id && o.entry.uploadedAt == env.now
    ensures o.Recorded? ==> (o.result.Skipped? <==> o.entry.serverPhotoId.None?)
    ensures o.Recorded? && o.result.Success? ==> o.entry.serverPhotoId == Some(o.result.photo.id)
    ensures env.exportData(id).Ok? && HasChecksum(l, Sha256Checksum(env.exportData(id).value.data, env.sha256)) ==>
      o == Recorded(Skipped(id), UploadedPhoto(id, None, Sha256Checksum(env.exportData(id).value.data, env.sha256), env.now))
  {
    match env.exportData(id)
    case Err(e) => ItemFailed(e)
    case Ok(x) =>
      var checksum := Sha256Checksum(x.data, env.sha256);
      if HasChecksum(l, checksum) then Recorded(Skipped(id), UploadedPhoto(id, None, checksum, env.now))
      else
        match env.server(x)
        case Created(photo) => Recorded(Success(photo), UploadedPhoto(id, Some(photo.id), checksum, env.now))
        case DuplicateOnServer => Recorded(Skipped(id), UploadedPhoto(id, None, checksum, env.now))
        case UploadFailed(e) => ItemFailed(e)
  }

  /**
   * The classification of one item: an export error fails it with that error; after an export
   * the item is recorded exactly when the checksum is known or the server does not fail it,
   * recorded as skipped exactly when the checksum is known or the server reports a duplicate,
   * and otherwise recorded as the server's created photo; a failed upload carries the server's
   * description. A recorded entry holds the exported data's checksum.
   */
  lemma ItemOutcomeClassified(l: Ledger, id: string, env: SyncEnv)
    ensures var o := ItemOutcomeOf(l, id, env);
      env.exportData(id).Err? ==> o == ItemFailed(env.exportData(id).error)
    ensures var o := ItemOutcomeOf(l, id, env);
      env.exportData(id).Ok? ==>
      var x := env.exportData(id).value;
      var checksum := Sha256Checksum(x.data, env.sha256);
      var known := HasChecksum(l, checksum);
      (o.Recorded? <==> known || !env.server(x).UploadFailed?) &&
      (o.Recorded? ==> o.entry.checksum == checksum) &&
      (o.Recorded? ==> (o.result.Skipped? <==> known || env.server(x).DuplicateOnServer?)) &&
      (o.Recorded? && o.result.Skipped? ==> o.result == Skipped(id)) &&
      (o.Recorded? && !o.result.Skipped? ==> o.result == Success(env.server(x).photo)) &&
      (o.ItemFailed? ==> o.description == env.server(x).description)
  {
  }

  /** The ledger, recent results and counters as a pass goes along. */
  datatype Progress = Progress(ledger: Ledger, recent: seq<UploadResult>, uploaded: nat, failed: nat)

  function Step(p: Progress, id: string, env: SyncEnv): Progress {
    match ItemOutcomeOf(p.ledger, id, env)
    case Recorded(result, entry) => Progress(p.ledger[id := entry], PushResult(p.recent, result), p.uploaded + 1, p.failed)
    case ItemFailed(_) => p.(failed := p.failed + 1)
  }

  /** Every item of `ids` attempted in order, none stopping the pass. */
  function Pass(p: Progress, ids: seq<string>, env: SyncEnv): Progress {
    if ids == [] then p else Step(Pass(p, ids[..|ids| - 1], env), ids[|ids| - 1], env)
  }

  /** Each attempted item is counted once, as uploaded (skips included) or as failed. */
  lemma {:induction false} PassCounts(p: Progress, ids: seq<string>, env: SyncEnv)
    ensures Pass(p, ids, env).uploaded + Pass(p, ids, env).failed == p.uploaded + p.failed + |ids|
    ensures Pass(p, ids, env).uploaded >= p.uploaded && Pass(p, ids, env).failed >= p.failed
  {
    if ids != [] {
      PassCounts(p, ids[..|ids| - 1], env);
    }
  }

  /** A pass never forgets a ledger entry and only adds entries for the ids it attempted. */
  lemma {:induction false} PassLedgerGrows(p: Progress, ids: seq<string>, env: SyncEnv)
    ensures p.ledger.Keys <= Pass(p, ids, env).ledger.Keys
    ensures forall k :: k in Pass(p, ids, env).ledger ==> k in p.ledger || k in ids
  {
    if ids != [] {
      PassLedgerGrows(p, ids[..|ids| - 1], env);
    }
  }

  /**
   * With distinct assets not yet in the ledger, each one has an entry afterwards exactly when
   * it was recorded at its turn, and that entry is the one its outcome named; a failed asset
   * leaves no trace in the ledger.
   */
  lemma {:induction false} PassEntries(p: Progress, ids: seq<string>, env: SyncEnv, i: nat)
    requires Distinct(ids) && i < |ids|
    requires forall k :: k in ids ==> k !in p.ledger
    ensures var o := ItemOutcomeOf(Pass(p, ids[..i], env).ledger, ids[i], env);
      (ids[i] in Pass(p, ids, env).ledger <==> o.Recorded?) &&
      (o.Recorded? ==> Pass(p, ids, env).ledger[ids[i]] == o.entry)
  {
    var n := |ids| - 1;
    var pre := ids[..n];
    if i == n {
      assert ids[..i] == pre;
      PassLedgerGrows(p, pre, env);
      assert ids[i] !in Pass(p, pre, env).ledger by {
        assert ids[n] !in p.ledger;
        assert ids[n] !in pre;
      }
    } else {
      assert pre[..i] == ids[..i];
      assert pre[i] == ids[i];
      PassEntries(p, pre, env, i);
      assert ids[n] != ids[i];
    }
  }

  /**
   * With distinct assets not yet in the ledger, the ledger grows by exactly the number of
   * items counted as uploaded (skips included).
   */
  lemma {:induction false} PassLedgerSize(p: Progress, ids: seq<string>, env: SyncEnv)
    requires Distinct(ids)
    requires forall k :: k in ids ==> k !in p.ledger
    ensures |Pass(p, ids, env).ledger| == |p.ledger| + Pass(p, ids, env).uploaded - p.uploaded
  {
    if ids != [] {
      var n := |ids| - 1;
      var pre := ids[..n];
      PassLedgerSize(p, pre, env);
      PassLedgerGrows(p, pre, env);
      PassCounts(p, pre, env);
      var q := Pass(p, pre, env);
      assert ids[n] !in q.ledger by {
        assert ids[n] !in pre;
      }
      if ItemOutcomeOf(q.ledger, ids[n], env).Recorded? {
        assert (q.ledger[ids[n] := ItemOutcomeOf(q.ledger, ids[n], env).entry]).Keys == q.ledger.Keys + {ids[n]};
      }
    }
  }

  /** Items attempted until the first failure stops the run; the failure's description, if any. */
  datatype Run = Run(progress: Progress, stoppedBy: Option<string>)

  /** `for asset in ... { try await uploadPhoto(asset) }`: stops at the first thrown error. */
  function UntilFailure(p: Progress, ids: seq<string>, env: SyncEnv): Run {
    if ids == [] then Run(p, None)
    else
      var run := UntilFailure(p, ids[..|ids| - 1], env);
      if run.stoppedBy.Some? then run
      else
        var last := ids[|ids| - 1];
        match ItemOutcomeOf(run.progress.ledger, last, env)
        case Recorded(_, _) => Run(Step(run.progress, last, env), None)
        case ItemFailed(e) => Run(run.progress, Some(e))
  }

  /** A run that does not stop is the full pass; a stopped run recorded every item before the failure. */
  lemma {:induction false} UntilFailureIsPassPrefix(p: Progress, ids: seq<string>, env: SyncEnv)
    ensures UntilFailure(p, ids, env).stoppedBy.None? ==> UntilFailure(p, ids, env).progress == Pass(p, ids, env)
    ensures UntilFailure(p, ids, env).progress.failed == p.failed
  {
    if ids != [] {
      UntilFailureIsPassPrefix(p, ids[..|ids| - 1], env);
    }
  }

  /**
   * The asset `currentPhotoId` names after a run: the last item started, which is the failing
   * one when the run stopped, or `before` when no item was started.
   */
  function LastStarted(p: Progress, ids: seq<string>, env: SyncEnv, before: Option<string>): Option<string> {
    if ids == [] then before
    else
      var pre := ids[..|ids| - 1];
      if UntilFailure(p, pre, env).stoppedBy.Some? then LastStarted(p, pre, env, before) else Some(ids[|ids| - 1])
  }

  /**
   * After a run without failure the current photo is the last item (or unchanged for no items);
   * after a stopped run it is the item whose outcome failed, every item before it recorded.
   */
  lemma {:induction false} LastStartedIsFailingOrLast(p: Progress, ids: seq<string>, env: SyncEnv, before: Option<string>)
    ensures UntilFailure(p, ids, env).stoppedBy.None? ==>
      LastStarted(p, ids, env, before) == if ids == [] then before else Some(ids[|ids| - 1])
    ensures UntilFailure(p, ids, env).stoppedBy.Some? ==>
      exists k :: 0 <= k < |ids| && LastStarted(p, ids, env, before) == Some(ids[k]) &&
        UntilFailure(p, ids[..k], env).stoppedBy.None? &&
        ItemOutcomeOf(UntilFailure(p, ids[..k], env).progress.ledger, ids[k], env).ItemFailed?
  {
    if ids != [] {
      var n := |ids| - 1;
      var pre := ids[..n];
      LastStartedIsFailingOrLast(p, pre, env, before);
      if UntilFailure(p, pre, env).stoppedBy.Some? {
        var k :| 0 <= k < |pre| && LastStarted(p, pre, env, before) == Some(pre[k]) &&
          UntilFailure(p, pre[..k], env).stoppedBy.None? &&
          ItemOutcomeOf(UntilFailure(p, pre[..k], env).progress.ledger, pre[k], env).ItemFailed?;
        assert pre[..k] == ids[..k] && pre[k] == ids[k];
      } else if UntilFailure(p, ids, env).stoppedBy.Some? {
        assert ids[..n] == pre;
      }
    }
  }

  /** Once a run has stopped, later items do not change the current photo either. */
  lemma {:induction false} LastStartedStops(p: Progress, ids: seq<string>, env: SyncEnv, before: Option<string>, k: nat)
    requires k <= |ids| && UntilFailure(p, ids[..k], env).stoppedBy.Some?
    ensures LastStarted(p, ids, env, before) == LastStarted(p, ids[..k], env, before)
    decreases |ids|
  {
    if k < |ids| {
      var n := |ids| - 1;
      assert ids[..n][..k] == ids[..k];
      UntilFailureStops(p, ids[..n], env, k);
      LastStartedStops(p, ids[..n], env, before, k);
    } else {
      assert ids[..k] == ids;
    }
  }

  /** How many items a manual pass starts when a pause may arrive before item `k`. */
  function Attempted(total: nat, pauseBefore: Option<nat>): (n: nat)
    ensures n <= total
    ensures pauseBefore.None? ==> n == total
  {
    if pauseBefore.Some? && pauseBefore.value < total then pauseBefore.value else total
  }

  class SyncEngine {
    var state: SyncState
    var recentUploads: seq<UploadResult>
    var observingLibrary: bool
    var lastSyncDate: Option<Date>
    const ledger: UploadStateStore

    ghost predicate Valid()
      reads this
    {
      |recentUploads| <= RecentLimit
    }

    constructor (ledger: UploadStateStore)
      ensures Valid() && this.ledger == ledger
      ensures state == InitialState() && recentUploads == [] && !observingLibrary && lastSyncDate == None
    {
      this.state := InitialState();
      this.recentUploads := [];
      this.observingLibrary := false;
      this.lastSyncDate := None;
      this.ledger := ledger;
    }

    /** `addUploadResult`: newest first, never more than 50, the oldest evicted. */
    method AddUploadResult(r: UploadResult)
      requires Valid()
      modifies this`recentUploads
      ensures Valid() && recentUploads == PushResult(old(recentUploads), r)
    {
      recentUploads := [r] + recentUploads;
      if |recentUploads| > RecentLimit {
        recentUploads := recentUploads[..|recentUploads| - 1];
      }
    }

    /** `uploadPhoto(_:)` on one asset: its outcome decides the ledger write and the recent entry. */
    method UploadItem(id: string, env: SyncEnv) returns (r: Result<(), string>)
      requires Valid()
      modifies this, ledger
      ensures Valid()
      ensures state == old(state).(currentPhotoId := Some(id))
      ensures observingLibrary == old(observingLibrary) && lastSyncDate == old(lastSyncDate)
      ensures var p := Step(Progress(old(ledger.uploadedPhotos), old(recentUploads), 0, 0), id, env);
        ledger.uploadedPhotos == p.ledger && recentUploads == p.recent &&
        (r.Ok? <==> p.uploaded == 1) &&
        (r.Err? ==> r.error == ItemOutcomeOf(old(ledger.uploadedPhotos), id, env).description)
    {
      state := state.(currentPhotoId := Some(id));
      var exported := env.exportData(id);
      if exported.Err? {
        return Err(exported.error);
      }
      var checksum := Sha256Checksum(exported.value.data, env.sha256);
      var known := ledger.ExistsChecksum(checksum);
      if known {
        ledger.MarkAsUploaded(id, None, checksum, env.now);
        AddUploadResult(Skipped(id));
        return Ok(());
      }
      match env.server(exported.value)
      case Created(photo) =>
        ledger.MarkAsUploaded(id, Some(photo.id), checksum, env.now);
        AddUploadResult(Success(photo));
        r := Ok(());
      case DuplicateOnServer =>
        ledger.MarkAsUploaded(id, None, checksum, env.now);
        AddUploadResult(Skipped(id));
        r := Ok(());
      case UploadFailed(e) =>
        r := Err(e);
    }

    /**
     * `findPhotosToUpload`: refused without library access; otherwise the library's assets
     * whose id the ledger does not hold, in enumeration order.
     */
    method FindPhotosToUpload(library: seq<string>, auth: AuthorizationStatus) returns (r: Result<seq<string>, SyncError>)
      ensures !Permitted(auth) ==> r == Err(PhotoLibraryAccessDenied)
      ensures Permitted(auth) ==> r == Ok(ToUpload(library, ledger.uploadedPhotos.Keys))
    {
      if !Permitted(auth) {
        return Err(PhotoLibraryAccessDenied);
      }
      var uploaded := ledger.GetUploadedIdentifiers();
      var todo: seq<string> := [];
      var i := 0;
      while i < |library|
        invariant 0 <= i <= |library|
        invariant todo == ToUpload(library[..i], uploaded)
      {
        assert library[..i + 1][..i] == library[..i];
        if library[i] !in uploaded {
          todo := todo + [library[i]];
        }
        i := i + 1;
      }
      assert library[..|library|] == library;
      r := Ok(todo);
    }

    /** `pauseSync`: acts only while syncing. */
    method PauseSync()
      modifies this`state
      ensures state == if old(state.status) == Syncing then old(state).(status := Paused) else old(state)
    {
      if state.status == Syncing {
        state := state.(status := Paused);
      }
    }

    /**
     * `triggerManualSync`: a no-op while a pass is running. Otherwise the counters restart, the
     * upload set is computed, and its items are attempted in order until the end or until a
     * pause; a failed item is counted and the pass goes on. Afterwards the status is idle, even
     * when the pass stopped because of a pause. Without library access the status becomes the
     * error and nothing is uploaded.
     */
    method TriggerManualSync(library: seq<string>, auth: AuthorizationStatus, env: SyncEnv, pauseBefore: Option<nat>)
      requires Valid()
      modifies this, ledger
      ensures Valid()
      ensures observingLibrary == old(observingLibrary) && state.isEnabled == old(state.isEnabled)
      ensures old(state.status) == Syncing ==>
        state == old(state) && recentUploads == old(recentUploads) &&
        ledger.uploadedPhotos == old(ledger.uploadedPhotos) && lastSyncDate == old(lastSyncDate)
      ensures old(state.status) != Syncing && !Permitted(auth) ==>
        state == old(state).(status := Error(ErrorDescription(PhotoLibraryAccessDenied)), uploadedCount := 0, failedCount := 0) &&
        recentUploads == old(recentUploads) && ledger.uploadedPhotos == old(ledger.uploadedPhotos) &&
        lastSyncDate == old(lastSyncDate)
      ensures old(state.status) != Syncing && Permitted(auth) ==>
        var todo := ToUpload(library, old(ledger.uploadedPhotos).Keys);
        var n := Attempted(|todo|, pauseBefore);
        var p := Pass(Progress(old(ledger.uploadedPhotos), old(recentUploads), 0, 0), todo[..n], env);
        state.status == Idle && state.totalCount == |todo| && state.pendingCount == |todo| - n &&
        state.uploadedCount == p.uploaded && state.failedCount == p.failed &&
        state.uploadedCount + state.failedCount + state.pendingCount == state.totalCount &&
        ledger.uploadedPhotos == p.ledger && recentUploads == p.recent &&
        state.currentPhotoId == (if n > 0 then Some(todo[n - 1]) else old(state.currentPhotoId)) &&
        lastSyncDate == Some(env.now)
    {
      if state.status == Syncing {
        return;
      }
      state := state.(status := Syncing, uploadedCount := 0, failedCount := 0);
      var found := FindPhotosToUpload(library, auth);
      if found.Err? {
        state := state.(status := Error(ErrorDescription(found.error)));
        return;
      }
      var todo := found.value;
      ghost var start := Progress(ledger.uploadedPhotos, recentUploads, 0, 0);
      AttemptItems(todo, env, pauseBefore);
      PassCounts(start, todo[..Attempted(|todo|, pauseBefore)], env);
      state := state.(status := Idle);
      lastSyncDate := Some(env.now);
    }

    /**
     * The item loop of `triggerManualSync`: each item is attempted in order and counted; a
     * pause arriving before item `k` ends the loop at `k`.
     */
    method AttemptItems(todo: seq<string>, env: SyncEnv, pauseBefore: Option<nat>)
      requires Valid() && state.status == Syncing
      modifies this, ledger
      ensures Valid()
      ensures observingLibrary == old(observingLibrary) && lastSyncDate == old(lastSyncDate)
      ensures var n := Attempted(|todo|, pauseBefore);
        var p := Pass(Progress(old(ledger.uploadedPhotos), old(recentUploads), 0, 0), todo[..n], env);
        state == old(state).(status := state.status, totalCount := |todo|, pendingCount := |todo| - n,
                             uploadedCount := p.uploaded, failedCount := p.failed,
                             currentPhotoId := if n > 0 then Some(todo[n - 1]) else old(state.currentPhotoId)) &&
        (state.status == Syncing || state.status == Paused) &&
        ledger.uploadedPhotos == p.ledger && recentUploads == p.recent
    {
      state := state.(totalCount := |todo|, pendingCount := |todo|, uploadedCount := 0, failedCount := 0);
      ghost var start := Progress(ledger.uploadedPhotos, recentUploads, 0, 0);
      var i := 0;
      while i < |todo|
        invariant 0 <= i <= Attempted(|todo|, pauseBefore)
        invariant Valid()
        invariant state.status == Syncing
        invariant state == old(state).(totalCount := |todo|, pendingCount := |todo| - i,
                                       uploadedCount := state.uploadedCount, failedCount := state.failedCount,
                                       currentPhotoId := if i > 0 then Some(todo[i - 1]) else old(state.currentPhotoId))
        invariant observingLibrary == old(observingLibrary) && lastSyncDate == old(lastSyncDate)
        invariant state.uploadedCount >= 0 && state.failedCount >= 0
        invariant Pass(start, todo[..i], env) == Progress(ledger.uploadedPhotos, recentUploads, state.uploadedCount, state.failedCount)
      {
        if pauseBefore == Some(i) {
          PauseSync();
          return;
        }
        assert todo[..i + 1][..i] == todo[..i];
        CountedUpload(todo[i], env);
        i := i + 1;
      }
    }

    /** One item of the manual pass: uploaded, then counted as uploaded or failed, and no longer pending. */
    method CountedUpload(id: string, env: SyncEnv)
      requires Valid() && state.uploadedCount >= 0 && state.failedCount >= 0
      modifies this, ledger
      ensures Valid()
      ensures observingLibrary == old(observingLibrary) && lastSyncDate == old(lastSyncDate)
      ensures state == old(state).(uploadedCount := state.uploadedCount, failedCount := state.failedCount,
                                   pendingCount := old(state.pendingCount) - 1, currentPhotoId := Some(id))
      ensures state.uploadedCount >= 0 && state.failedCount >= 0
      ensures Progress(ledger.uploadedPhotos, recentUploads, state.uploadedCount, state.failedCount) ==
        Step(Progress(old(ledger.uploadedPhotos), old(recentUploads), old(state.uploadedCount), old(state.failedCount)), id, env)
    {
      var r := UploadItem(id, env);
      if r.Ok? {
        state := state.(uploadedCount := state.uploadedCount + 1);
      } else {
        state := state.(failedCount := state.failedCount + 1);
      }
      state := state.(pendingCount := state.pendingCount - 1);
    }

    /** `resumeSync`: starts a manual pass, but only from the paused status. */
    method ResumeSync(library: seq<string>, auth: AuthorizationStatus, env: SyncEnv, pauseBefore: Option<nat>)
      requires Valid()
      modifies this, ledger
      ensures Valid()
      ensures old(state.status) != Paused ==>
        state == old(state) && recentUploads == old(recentUploads) &&
        ledger.uploadedPhotos == old(ledger.uploadedPhotos) && lastSyncDate == old(lastSyncDate)
      ensures old(state.status) == Paused ==> state.status == Idle || state.status.Error?
    {
      if state.status == Paused {
        TriggerManualSync(library, auth, env, pauseBefore);
      }
    }

    /** `enableAutoSync`: records the flag and starts or stops observing the library. */
    method EnableAutoSync(enabled: bool)
      modifies this`state, this`observingLibrary
      ensures state == old(state).(isEnabled := enabled)
      ensures observingLibrary == enabled
    {
      state := state.(isEnabled := enabled);
      if enabled {
        if state.isEnabled {
          observingLibrary := true;
        }
      } else {
        observingLibrary := false;
      }
    }

    /**
     * `handleNewPhotos`: with auto-sync on, every newly added asset is attempted in order and a
     * failure does not stop the others; with auto-sync off nothing happens.
     */
    method HandleNewPhotos(assets: seq<string>, env: SyncEnv)
      requires Valid()
      modifies this, ledger
      ensures Valid()
      ensures observingLibrary == old(observingLibrary) && lastSyncDate == old(lastSyncDate)
      ensures !old(state.isEnabled) ==>
        state == old(state) && recentUploads == old(recentUploads) && ledger.uploadedPhotos == old(ledger.uploadedPhotos)
      ensures old(state.isEnabled) ==>
        var p := Pass(Progress(old(ledger.uploadedPhotos), old(recentUploads), 0, 0), assets, env);
        ledger.uploadedPhotos == p.ledger && recentUploads == p.recent &&
        state == old(state).(currentPhotoId := if |assets| > 0 then Some(assets[|assets| - 1]) else old(state.currentPhotoId))
    {
      if !state.isEnabled {
        return;
      }
      ghost var start := Progress(ledger.uploadedPhotos, recentUploads, 0, 0);
      ghost var uploaded, failed := 0, 0;
      var i := 0;
      while i < |assets|
        invariant 0 <= i <= |assets|
        invariant Valid()
        invariant state == old(state).(currentPhotoId := if i > 0 then Some(assets[i - 1]) else old(state.currentPhotoId))
        invariant observingLibrary == old(observingLibrary) && lastSyncDate == old(lastSyncDate)
        invariant Pass(start, assets[..i], env) == Progress(ledger.uploadedPhotos, recentUploads, uploaded, failed)
      {
        assert assets[..i + 1][..i] == assets[..i];
        var r := UploadItem(assets[i], env);
        if r.Ok? {
          uploaded := uploaded + 1;
        } else {
          failed := failed + 1;
        }
        i := i + 1;
      }
      assert assets[..|assets|] == assets;
    }

    /**
     * `performBackgroundSync` as written: marks the status syncing, then attempts at most the
     * first 50 items of the upload set and stops at the first error. Only a run without error
     * sets the status back to idle; on an error the status stays syncing.
     */
    method PerformBackgroundSync(library: seq<string>, auth: AuthorizationStatus, env: SyncEnv)
      returns (r: Result<(), string>)
      requires Valid()
      modifies this, ledger
      ensures Valid()
      ensures state == old(state).(status := state.status, currentPhotoId := state.currentPhotoId)
      ensures observingLibrary == old(observingLibrary)
      ensures !Permitted(auth) ==>
        r == Err(ErrorDescription(PhotoLibraryAccessDenied)) && state == old(state).(status := Syncing) &&
        ledger.uploadedPhotos == old(ledger.uploadedPhotos) && recentUploads == old(recentUploads) &&
        lastSyncDate == old(lastSyncDate)
      ensures Permitted(auth) ==>
        var todo := ToUpload(library, old(ledger.uploadedPhotos).Keys);
        var run := UntilFailure(Progress(old(ledger.uploadedPhotos), old(recentUploads), 0, 0),
                                todo[..Min(BackgroundBatch, |todo|)], env);
        ledger.uploadedPhotos == run.progress.ledger && recentUploads == run.progress.recent &&
        state.currentPhotoId == LastStarted(Progress(old(ledger.uploadedPhotos), old(recentUploads), 0, 0),
                                            todo[..Min(BackgroundBatch, |todo|)], env, old(state.currentPhotoId)) &&
        (run.stoppedBy.Some? ==> r == Err(run.stoppedBy.value) && state.status == Syncing && lastSyncDate == old(lastSyncDate)) &&
        (run.stoppedBy.None? ==> r.Ok? && state.status == Idle && lastSyncDate == Some(env.now))
    {
      state := state.(status := Syncing);
      var found := FindPhotosToUpload(library, auth);
      if found.Err? {
        return Err(ErrorDescription(found.error));
      }
      var batch := found.value[..Min(BackgroundBatch, |found.value|)];
      r := UploadUntilFailure(batch, env);
      if r.Err? {
        return;
      }
      state := state.(status := Idle);
      lastSyncDate := Some(env.now);
    }

    /**
     * `performBackgroundSync` with the status reset the manual pass performs: an error ends in
     * `.error(description)` instead of leaving the status syncing.
     */
    method PerformBackgroundSyncResetting(library: seq<string>, auth: AuthorizationStatus, env: SyncEnv)
      returns (r: Result<(), string>)
      requires Valid()
      modifies this, ledger
      ensures Valid()
      ensures state == old(state).(status := state.status, currentPhotoId := state.currentPhotoId)
      ensures observingLibrary == old(observingLibrary)
      ensures state.status != Syncing
      ensures r.Err? ==> state.status == Error(r.error) && lastSyncDate == old(lastSyncDate)
      ensures r.Ok? ==> state.status == Idle && lastSyncDate == Some(env.now)
      ensures !Permitted(auth) ==>
        r == Err(ErrorDescription(PhotoLibraryAccessDenied)) &&
        state == old(state).(status := Error(ErrorDescription(PhotoLibraryAccessDenied))) &&
        ledger.uploadedPhotos == old(ledger.uploadedPhotos) && recentUploads == old(recentUploads)
      ensures Permitted(auth) ==>
        var todo := ToUpload(library, old(ledger.uploadedPhotos).Keys);
        var run := UntilFailure(Progress(old(ledger.uploadedPhotos), old(recentUploads), 0, 0),
                                todo[..Min(BackgroundBatch, |todo|)], env);
        ledger.uploadedPhotos == run.progress.ledger && recentUploads == run.progress.recent &&
        state.currentPhotoId == LastStarted(Progress(old(ledger.uploadedPhotos), old(recentUploads), 0, 0),
                                            todo[..Min(BackgroundBatch, |todo|)], env, old(state.currentPhotoId)) &&
        (r.Ok? <==> run.stoppedBy.None?) && (r.Err? ==> r.error == run.stoppedBy.value)
    {
      state := state.(status := Syncing);
      var found := FindPhotosToUpload(library, auth);
      if found.Err? {
        r := Err(ErrorDescription(found.error));
        state := state.(status := Error(r.error));
        return;
      }
      var batch := found.value[..Min(BackgroundBatch, |found.value|)];
      r := UploadUntilFailure(batch, env);
      if r.Err? {
        state := state.(status := Error(r.error));
        return;
      }
      state := state.(status := Idle);
      lastSyncDate := Some(env.now);
    }

    /** The loop `for asset in batch { try await uploadPhoto(asset) }`. */
    method UploadUntilFailure(batch: seq<string>, env: SyncEnv) returns (r: Result<(), string>)
      requires Valid()
      modifies this, ledger
      ensures Valid()
      ensures state.(currentPhotoId := None) == old(state).(currentPhotoId := None)
      ensures state.currentPhotoId ==
        LastStarted(Progress(old(ledger.uploadedPhotos), old(recentUploads), 0, 0), batch, env, old(state.currentPhotoId))
      ensures observingLibrary == old(observingLibrary) && lastSyncDate == old(lastSyncDate)
      ensures var run := UntilFailure(Progress(old(ledger.uploadedPhotos), old(recentUploads), 0, 0), batch, env);
        ledger.uploadedPhotos == run.progress.ledger && recentUploads == run.progress.recent &&
        (r.Ok? <==> run.stoppedBy.None?) && (r.Err? ==> r.error == run.stoppedBy.value)
    {
      ghost var start := Progress(ledger.uploadedPhotos, recentUploads, 0, 0);
      ghost var uploaded := 0;
      var i := 0;
      while i < |batch|
        invariant 0 <= i <= |batch|
        invariant Valid()
        invariant state.(currentPhotoId := None) == old(state).(currentPhotoId := None)
        invariant state.currentPhotoId == LastStarted(start, batch[..i], env, old(state.currentPhotoId))
        invariant observingLibrary == old(observingLibrary) && lastSyncDate == old(lastSyncDate)
        invariant UntilFailure(start, batch[..i], env) == Run(Progress(ledger.uploadedPhotos, recentUploads, uploaded, 0), None)
      {
        assert batch[..i + 1][..i] == batch[..i];
        var item := UploadItem(batch[i], env);
        if item.Err? {
          UntilFailureStops(start, batch, env, i + 1);
          LastStartedStops(start, batch, env, old(state.currentPhotoId), i + 1);
          return Err(item.error);
        }
        uploaded := uploaded + 1;
        i := i + 1;
      }
      assert batch[..|batch|] == batch;
      r := Ok(());
    }
  }

  /** Once a run has stopped, later items change nothing. */
  lemma {:induction false} UntilFailureStops(p: Progress, ids: seq<string>, env: SyncEnv, k: nat)
    requires k <= |ids| && UntilFailure(p, ids[..k], env).stoppedBy.Some?
    ensures UntilFailure(p, ids, env) == UntilFailure(p, ids[..k], env)
    decreases |ids|
  {
    if k < |ids| {
      var n := |ids| - 1;
      assert ids[..n][..k] == ids[..k];
      UntilFailureStops(p, ids[..n], env, k);
    } else {
      assert ids[..k] == ids;
    }
  }

  /**
   * The consequence of the background pass as written: once it has failed (here for want of
   * library access), the status stays syncing and a later manual pass returns at once, leaving
   * the ledger as it was, however many assets are waiting.
   */
  method BackgroundFailureBlocksManualSync(engine: SyncEngine, library: seq<string>, env: SyncEnv)
    returns (r: Result<(), string>)
    requires engine.Valid()
    modifies engine, engine.ledger
    ensures r.Err? && engine.state.status == Syncing
    ensures engine.ledger.uploadedPhotos == old(engine.ledger.uploadedPhotos)
  {
    r := engine.PerformBackgroundSync(library, Denied, env);
    engine.TriggerManualSync(library, Authorized, env, None);
  }

  /** With the reset, a failed background pass leaves the manual pass able to run. */
  method BackgroundFailureThenManualSync(engine: SyncEngine, library: seq<string>, env: SyncEnv)
    returns (r: Result<(), string>)
    requires engine.Valid()
    modifies engine, engine.ledger
    ensures r.Err?
    ensures engine.state.status == Idle
    ensures engine.state.totalCount == |ToUpload(library, old(engine.ledger.uploadedPhotos).Keys)|
  {
    r := engine.PerformBackgroundSyncResetting(library, Denied, env);
    engine.TriggerManualSync(library, Authorized, env, None);
  }
}

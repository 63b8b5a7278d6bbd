/**
 * The decision rules of the edit page's `handleSaveImage`: the guard, the capture, the
 * JPEG blob, the share sheet and the download fallback, and the clean-up. The capture
 * and the browser's answers are inputs; the result is the sequence of effects.
 */
module EditSave {
  import opened Delivery

  const NotReadyMessage: string := "Editor is not ready yet, please wait a moment."
  const CaptureFailedMessage: string := "Sorry, something went wrong while saving the image."
  const BlobFailedMessage: string := "Failed to create image file."

  /** The edit page always saves under this fixed name. */
  const EditedFileName: string := "edited-image.jpg"

  /**
   * What the outside world answers during one save: whether the user agent is an iOS
   * device, whether html2canvas produced a canvas, whether `toBlob` produced a blob,
   * what `navigator.canShare` says and how `navigator.share` ends.
   */
  datatype SaveEnv = SaveEnv(
    isIOS: bool,
    captured: bool,
    blobCreated: bool,
    canShare: CanShareProbe,
    share: ShareOutcome)

  /** The capture scale: 1 on iOS, to spare its memory, and 2 elsewhere. */
  function CanvasScale(isIOS: bool): (scale: nat)
    ensures scale == 1 || scale == 2
    ensures isIOS <==> scale == 1
  {
    if isIOS then 1 else 2
  }

  /**
   * The effects of one save. `ready` is the guard: the image wrapper is mounted and
   * the capture library has loaded.
   */
  function EditSaveEffects(ready: bool, env: SaveEnv): (r: seq<Effect>)
    ensures !ready ==> r == [Alert(NotReadyMessage)]
    ensures ready ==> |r| >= 4 && r[0] == SavingChanged(true) && r[1] == Capture(CanvasScale(env.isIOS))
    ensures ready ==> SavingChanged(false) in r
  {
    if !ready then [Alert(NotReadyMessage)]
    else [SavingChanged(true), Capture(CanvasScale(env.isIOS))] + AfterCapture(env)
  }

  /** What follows the capture: the failure alert, or the blob callback. */
  function AfterCapture(env: SaveEnv): (r: seq<Effect>)
    ensures SavingChanged(false) in r
    ensures SavingChanged(true) !in r
    ensures (exists e :: e in r && e.Alert?) <==> !(env.captured && env.blobCreated)
    ensures ObjectUrlCreated in r <==> env.captured && env.blobCreated
  {
    if !env.captured then
      var r := [Alert(CaptureFailedMessage), SavingChanged(false)];
      assert r[0].Alert?;
      r
    else if !env.blobCreated then
      var r := [SavingChanged(false), Alert(BlobFailedMessage)];
      assert r[1].Alert?;
      r
    else [ObjectUrlCreated] + ShareOrDownload(env.canShare, env.share) + [ObjectUrlRevoked, SavingChanged(false)]
  }

  /**
   * The share-or-download branch of the blob callback: the share sheet when
   * `canShare` accepts the file, falling back to a download on any error but a
   * cancel; a download when `canShare` is missing or refuses.
   */
  function ShareOrDownload(probe: CanShareProbe, outcome: ShareOutcome): (r: seq<Effect>)
    ensures 1 <= |r| <= 2
    ensures ShareAttempted(r) <==> Accepts(probe)
    ensures Downloaded(r) <==> !Accepts(probe) || outcome == ShareFailed
    ensures DeliversAs(r, EditedFileName)
    ensures forall e :: e in r ==> e.ShareAttempt? || e == Download(ObjectUrl, EditedFileName)
  {
    if Accepts(probe) then
      var r := [ShareAttempt(EditedFileName)] + (if outcome == ShareFailed then [Download(ObjectUrl, EditedFileName)] else []);
      assert r[0].ShareAttempt?;
      assert outcome == ShareFailed ==> r[1].Download?;
      r
    else
      var r := [Download(ObjectUrl, EditedFileName)];
      assert r[0].Download?;
      r
  }

  /** When the editor is not ready the save only alerts: `isSaving` is never set. */
  lemma EditSaveGuard(ready: bool, env: SaveEnv)
    ensures var r := EditSaveEffects(ready, env);
            !ready <==> (r == [Alert(NotReadyMessage)] && SavingChanged(true) !in r)
  {
  }

  /** A ready save first sets `isSaving`, then captures at the platform's scale. */
  lemma EditSaveSetup(env: SaveEnv)
    ensures var r := EditSaveEffects(true, env);
            |r| >= 2 && r[0] == SavingChanged(true) && r[1] == Capture(if env.isIOS then 1 else 2)
  {
  }

  /** The share sheet is asked for exactly when a blob exists and `canShare` accepts it. */
  lemma EditSaveShare(ready: bool, env: SaveEnv)
    ensures ShareAttempted(EditSaveEffects(ready, env))
            <==> ready && env.captured && env.blobCreated && Accepts(env.canShare)
  {
    var r := EditSaveEffects(ready, env);
    if ready && env.captured && env.blobCreated && Accepts(env.canShare) {
      assert r[3] == ShareAttempt(EditedFileName);
    }
  }

  /**
   * A download happens exactly when a blob exists and either sharing is not offered or
   * the share fails with anything but a cancel.
   */
  lemma EditSaveDownload(ready: bool, env: SaveEnv)
    ensures Downloaded(EditSaveEffects(ready, env))
            <==> ready && env.captured && env.blobCreated && (!Accepts(env.canShare) || env.share == ShareFailed)
  {
    var r := EditSaveEffects(ready, env);
    if ready && env.captured && env.blobCreated {
      if !Accepts(env.canShare) {
        assert r[3] == Download(ObjectUrl, EditedFileName);
      } else if env.share == ShareFailed {
        assert r[4] == Download(ObjectUrl, EditedFileName);
      }
    }
  }

  /** Cancelling the share sheet delivers nothing: no download and no alert follows. */
  lemma EditSaveCancelIsSilent(env: SaveEnv)
    requires env.captured && env.blobCreated && Accepts(env.canShare) && env.share == ShareAborted
    ensures !Downloaded(EditSaveEffects(true, env))
    ensures forall e :: e in EditSaveEffects(true, env) ==> !e.Alert?
  {
    EditSaveDownload(true, env);
    assert EditSaveEffects(true, env) == [SavingChanged(true), Capture(CanvasScale(env.isIOS)), ObjectUrlCreated,
                                          ShareAttempt(EditedFileName), ObjectUrlRevoked, SavingChanged(false)];
  }

  /** The object URL is made exactly when a blob exists, and whenever it is made it is revoked. */
  lemma EditSaveUrlLifecycle(ready: bool, env: SaveEnv)
    ensures var r := EditSaveEffects(ready, env);
            && (ObjectUrlCreated in r <==> ready && env.captured && env.blobCreated)
            && (ObjectUrlRevoked in r <==> ObjectUrlCreated in r)
  {
    var r := EditSaveEffects(ready, env);
    if ready && env.captured && env.blobCreated {
      assert r[2] == ObjectUrlCreated;
      assert r[|r| - 2] == ObjectUrlRevoked;
    }
  }

  /** Every file shared or downloaded is named `edited-image.jpg`. */
  lemma EditSaveFileName(ready: bool, env: SaveEnv)
    ensures DeliversAs(EditSaveEffects(ready, env), EditedFileName)
  {
  }

  /**
   * After a ready save `isSaving` is false again on every path; a save stopped by the
   * guard leaves it as it was.
   */
  lemma EditSaveResetsSaving(ready: bool, env: SaveEnv, initial: bool)
    ensures FinalSaving(EditSaveEffects(ready, env), initial) == if ready then false else initial
  {
    var r := EditSaveEffects(ready, env);
    if !ready {
      assert FinalSaving(r[..0], initial) == initial;
    } else if env.captured && !env.blobCreated {
      var head := [SavingChanged(true), Capture(CanvasScale(env.isIOS)), SavingChanged(false)];
      assert r == head + [Alert(BlobFailedMessage)];
      FinalSavingAppend(head, [Alert(BlobFailedMessage)], initial);
    }
  }

  /** A failed capture or a missing blob alerts with its own message and delivers nothing. */
  lemma EditSaveFailures(env: SaveEnv)
    requires !env.captured || !env.blobCreated
    ensures var r := EditSaveEffects(true, env);
            && Alert(if env.captured then BlobFailedMessage else CaptureFailedMessage) in r
            && !Downloaded(r) && !ShareAttempted(r)
  {
    EditSaveDownload(true, env);
    EditSaveShare(true, env);
    var r := EditSaveEffects(true, env);
    if env.captured {
      assert r[3] == Alert(BlobFailedMessage);
    } else {
      assert r[2] == Alert(CaptureFailedMessage);
    }
  }
}

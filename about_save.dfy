/**
 * The decision rules of the about page's `handleSaveImage`: the file name, the share
 * sheet, the blob-URL download, and the data-URL download that every error falls back
 * to. The browser's answers are inputs; the result is the sequence of effects.
 */
module AboutSave {
  import opened Delivery
  import opened FileNames
  import EditSave

  /**
   * What the outside world answers during one save: whether fetching the data URL
   * gave a blob, whether `navigator.share` exists, what `navigator.canShare` says and
   * how `navigator.share` ends.
   */
  datatype AboutSaveEnv = AboutSaveEnv(
    fetchOk: bool,
    shareExists: bool,
    canShare: CanShareProbe,
    share: ShareOutcome)

  /**
   * The effects of one save of a converted image. Every error inside the `try` (the
   * fetch failing, calling a missing `canShare`, the share sheet failing or being
   * cancelled) ends in the data-URL download.
   */
  function AboutSaveEffects(imageName: string, env: AboutSaveEnv): (r: seq<Effect>)
    ensures 1 <= |r| <= 3
    ensures ShareAttempted(r) || Downloaded(r)
    ensures DeliversAs(r, BwFileName(imageName))
  {
    var fileName := BwFileName(imageName);
    var fallback := [Download(DataUrl, fileName)];
    assert fallback[0].Download?;
    if !env.fetchOk then fallback
    else if env.shareExists && env.canShare.CanShareAbsent? then fallback
    else if env.shareExists && Accepts(env.canShare) then
      var r := [ShareAttempt(fileName)] + (if env.share == Shared then [] else [Download(DataUrl, fileName)]);
      assert r[0].ShareAttempt?;
      r
    else
      var r := [ObjectUrlCreated, Download(ObjectUrl, fileName), ObjectUrlRevoked];
      assert r[1].Download?;
      r
  }

  /** Every file shared or downloaded is named after the image, with `-bw.jpg` appended. */
  lemma AboutSaveFileName(imageName: string, env: AboutSaveEnv)
    ensures DeliversAs(AboutSaveEffects(imageName, env), imageName + "-bw.jpg")
  {
  }

  /** The share sheet is asked for exactly when the blob exists, `share` exists and `canShare` accepts. */
  lemma AboutSaveShare(imageName: string, env: AboutSaveEnv)
    ensures ShareAttempted(AboutSaveEffects(imageName, env))
            <==> env.fetchOk && env.shareExists && Accepts(env.canShare)
  {
    var r := AboutSaveEffects(imageName, env);
    if env.fetchOk && env.shareExists && Accepts(env.canShare) {
      assert r[0].ShareAttempt?;
    }
  }

  /** The image is always delivered: a download happens unless the share sheet succeeded. */
  lemma AboutSaveDelivers(imageName: string, env: AboutSaveEnv)
    ensures Downloaded(AboutSaveEffects(imageName, env))
            <==> !(env.fetchOk && env.shareExists && Accepts(env.canShare) && env.share == Shared)
  {
    var r := AboutSaveEffects(imageName, env);
    if !(env.fetchOk && env.shareExists && Accepts(env.canShare) && env.share == Shared) {
      assert r[|r| - 1].Download? || r[1].Download?;
    }
  }

  /**
   * Any error falls back to a data-URL download under the same name: the fetch failing,
   * `canShare` missing while `share` exists, or the share sheet failing or cancelled.
   */
  lemma AboutSaveFallback(imageName: string, env: AboutSaveEnv)
    requires || !env.fetchOk
             || (env.shareExists && env.canShare.CanShareAbsent?)
             || (env.shareExists && Accepts(env.canShare) && env.share != Shared)
    ensures Download(DataUrl, imageName + "-bw.jpg") in AboutSaveEffects(imageName, env)
  {
    var r := AboutSaveEffects(imageName, env);
    assert r[|r| - 1] == Download(DataUrl, imageName + "-bw.jpg");
  }

  /**
   * The blob-URL download is used exactly when the fetch worked and sharing is not
   * offered; its URL is made before the click and revoked after it.
   */
  lemma AboutSaveBlobUrl(imageName: string, env: AboutSaveEnv)
    ensures var r := AboutSaveEffects(imageName, env);
            && (ObjectUrlCreated in r <==> env.fetchOk && (!env.shareExists || env.canShare == CanShareAnswers(false)))
            && (ObjectUrlCreated in r ==>
                  r == [ObjectUrlCreated, Download(ObjectUrl, imageName + "-bw.jpg"), ObjectUrlRevoked])
  {
  }

  /** The about page never alerts and has no saving flag. */
  lemma AboutSaveIsQuiet(imageName: string, env: AboutSaveEnv)
    ensures forall e :: e in AboutSaveEffects(imageName, env) ==> !e.Alert? && !e.SavingChanged?
  {
  }

  /**
   * The two pages part ways when the user cancels the share sheet: the edit page
   * delivers nothing, the about page falls back to a download.
   */
  lemma CancelDiffersBetweenPages(imageName: string, edit: EditSave.SaveEnv, about: AboutSaveEnv)
    requires edit.captured && edit.blobCreated && Accepts(edit.canShare) && edit.share == ShareAborted
    requires about.fetchOk && about.shareExists && Accepts(about.canShare) && about.share == ShareAborted
    ensures !Downloaded(EditSave.EditSaveEffects(true, edit))
    ensures Downloaded(AboutSaveEffects(imageName, about))
  {
    EditSave.EditSaveDownload(true, edit);
    AboutSaveDelivers(imageName, about);
  }
}

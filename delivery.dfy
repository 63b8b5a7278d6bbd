/**
 * What a save handler does to the outside world, as a sequence of observable effects,
 * and the browser answers it depends on. Both pages' save handlers are stated in this
 * vocabulary so that they can be compared.
 */
module Delivery {

  /** Where a download link points: a `blob:` URL made for the file, or the page's data URL. */
  datatype Href = ObjectUrl | DataUrl

  datatype Effect =
    | Alert(message: string)
    | SavingChanged(saving: bool)
    | Capture(scale: nat)
    | ObjectUrlCreated
    | ShareAttempt(fileName: string)
    | Download(href: Href, fileName: string)
    | ObjectUrlRevoked

  /** `navigator.canShare`: missing altogether, or present and answering for the file. */
  datatype CanShareProbe = CanShareAbsent | CanShareAnswers(accepts: bool)

  /**
   * How `navigator.share` ends: it resolves, the user cancels it (an `AbortError`), or
   * it fails in any other way (including a `TypeError` when `share` itself is missing).
   */
  datatype ShareOutcome = Shared | ShareAborted | ShareFailed

  predicate Accepts(probe: CanShareProbe) {
    probe.CanShareAnswers? && probe.accepts
  }

  /** Some download link was clicked. */
  predicate Downloaded(effects: seq<Effect>) {
    exists e :: e in effects && e.Download?
  }

  /** The share sheet was asked for. */
  predicate ShareAttempted(effects: seq<Effect>) {
    exists e :: e in effects && e.ShareAttempt?
  }

  /** Every file handed to the share sheet or to a download link carries this name. */
  predicate DeliversAs(effects: seq<Effect>, fileName: string) {
    forall e :: e in effects && (e.ShareAttempt? || e.Download?) ==> e.fileName == fileName
  }

  /** The value of `isSaving` after the effects, starting from `initial`. */
  function FinalSaving(effects: seq<Effect>, initial: bool): (saving: bool)
    ensures (forall e :: e in effects ==> !e.SavingChanged?) ==> saving == initial
    ensures |effects| > 0 && effects[|effects| - 1].SavingChanged? ==> saving == effects[|effects| - 1].saving
  {
    if |effects| == 0 then initial
    else if effects[|effects| - 1].SavingChanged? then effects[|effects| - 1].saving
    else FinalSaving(effects[..|effects| - 1], initial)
  }

  /** The flag after two runs of effects is the flag after the second, started from the first's. */
  lemma {:induction false} FinalSavingConcat(a: seq<Effect>, b: seq<Effect>, initial: bool)
    ensures FinalSaving(a + b, initial) == FinalSaving(b, FinalSaving(a, initial))
    decreases |b|
  {
    if |b| == 0 {
      assert a + b == a;
    } else {
      assert (a + b)[..|a + b| - 1] == a + b[..|b| - 1];
      FinalSavingConcat(a, b[..|b| - 1], initial);
    }
  }

  /** Appending effects that do not touch the flag keeps its value. */
  lemma {:induction false} FinalSavingAppend(a: seq<Effect>, b: seq<Effect>, initial: bool)
    ensures (forall e :: e in b ==> !e.SavingChanged?) ==> FinalSaving(a + b, initial) == FinalSaving(a, initial)
    ensures |b| > 0 && b[|b| - 1].SavingChanged? ==> FinalSaving(a + b, initial) == b[|b| - 1].saving
    decreases |b|
  {
    if |b| > 0 && forall e :: e in b ==> !e.SavingChanged? {
      assert (a + b)[..|a + b| - 1] == a + b[..|b| - 1];
      assert forall e :: e in b[..|b| - 1] ==> e in b;
      FinalSavingAppend(a, b[..|b| - 1], initial);
    } else if |b| == 0 {
      assert a + b == a;
    }
  }
}

/**
 * The edit page's state and the handlers that change it: the uploaded image, the
 * selected filter and its intensity, the effect map, the loading and saving flags, and
 * the effects the save handler has had so far.
 */
module EditPageState {
  import opened Common
  import opened Filters
  import opened Effects
  import opened Delivery
  import opened EditSave

  class EditPage {
    var imageSrc: Option<string>
    var selectedFilter: string
    var filterIntensity: real
    var activeEffects: map<string, bool>
    var isSaving: bool
    var isLibraryReady: bool
    /** Every effect the save handler has had on the outside world, oldest first. */
    var effects: seq<Effect>

    /**
     * The slider keeps the intensity between 0 and 150, and `isSaving` is what the
     * save handler's effects so far have left it at.
     */
    ghost predicate Valid()
      reads this
    {
      && 0.0 <= filterIntensity <= 150.0
      && isSaving == FinalSaving(effects, false)
    }

    /** The initial state: no image, the "none" filter at 100, no effects, nothing loaded or saving. */
    constructor ()
      ensures Valid()
      ensures imageSrc == None && selectedFilter == "none" && filterIntensity == 100.0
      ensures activeEffects == map[] && !isSaving && !isLibraryReady && effects == []
    {
      imageSrc := None;
      selectedFilter := "none";
      filterIntensity := 100.0;
      activeEffects := map[];
      isSaving := false;
      isLibraryReady := false;
      effects := [];
    }

    /** The image wrapper is mounted exactly while there is an image to show. */
    predicate WrapperMounted(): (mounted: bool)
      reads this
      ensures mounted ==> imageSrc.Some?
      ensures imageSrc == Some("") ==> !mounted
    {
      imageSrc.Some? && imageSrc.value != ""
    }

    /** The preview's filter value for the current selection and intensity. */
    function PreviewFilter(): (r: CssFilter)
      reads this
      ensures r.NoneKeyword? <==> selectedFilter == "none" || Find(Catalogue, selectedFilter).None?
    {
      CssFilterString(selectedFilter, filterIntensity)
    }

    /** The capture library has loaded (it was already on the page, or its script finished). */
    method LibraryLoaded()
      requires Valid()
      modifies this
      ensures Valid() && isLibraryReady
      ensures imageSrc == old(imageSrc) && selectedFilter == old(selectedFilter)
      ensures filterIntensity == old(filterIntensity) && activeEffects == old(activeEffects)
      ensures isSaving == old(isSaving) && effects == old(effects)
    {
      isLibraryReady := true;
    }

    /**
     * `handleImageUpload`: when a file was picked, its data URL (the reader's result)
     * becomes the image; with no file nothing changes.
     */
    method HandleImageUpload(pickedDataUrl: Option<string>)
      requires Valid()
      modifies this
      ensures Valid()
      ensures imageSrc == if pickedDataUrl.Some? then pickedDataUrl else old(imageSrc)
      ensures selectedFilter == old(selectedFilter) && filterIntensity == old(filterIntensity)
      ensures activeEffects == old(activeEffects) && isSaving == old(isSaving)
      ensures isLibraryReady == old(isLibraryReady) && effects == old(effects)
    {
      if pickedDataUrl.Some? {
        imageSrc := pickedDataUrl;
      }
    }

    /** A click on a catalogue thumbnail selects that filter. */
    method SelectFilter(id: string)
      requires Valid()
      modifies this
      ensures Valid() && selectedFilter == id
      ensures imageSrc == old(imageSrc) && filterIntensity == old(filterIntensity)
      ensures activeEffects == old(activeEffects) && isSaving == old(isSaving)
      ensures isLibraryReady == old(isLibraryReady) && effects == old(effects)
    {
      selectedFilter := id;
    }

    /** The intensity slider, whose range is 0 to 150. */
    method SetIntensity(value: real)
      requires Valid() && 0.0 <= value <= 150.0
      modifies this
      ensures Valid() && filterIntensity == value
      ensures imageSrc == old(imageSrc) && selectedFilter == old(selectedFilter)
      ensures activeEffects == old(activeEffects) && isSaving == old(isSaving)
      ensures isLibraryReady == old(isLibraryReady) && effects == old(effects)
    {
      filterIntensity := value;
    }

    /** `toggleEffect`: flips one effect in the map. */
    method ToggleEffect(id: string)
      requires Valid()
      modifies this
      ensures Valid() && activeEffects == Toggle(old(activeEffects), id)
      ensures imageSrc == old(imageSrc) && selectedFilter == old(selectedFilter)
      ensures filterIntensity == old(filterIntensity) && isSaving == old(isSaving)
      ensures isLibraryReady == old(isLibraryReady) && effects == old(effects)
    {
      activeEffects := activeEffects[id := !Truthy(activeEffects, id)];
    }

    /**
     * `handleSaveImage`, step by step, against the answers in `env`. What it does to
     * the outside world is `EditSaveEffects`; `isSaving` ends false after any save that
     * passed the guard and is untouched by one that did not.
     */
    method HandleSaveImage(env: SaveEnv)
      requires Valid()
      modifies this
      ensures Valid()
      ensures effects == old(effects) + EditSaveEffects(old(WrapperMounted()) && old(isLibraryReady), env)
      ensures isSaving == if old(WrapperMounted()) && old(isLibraryReady) then false else old(isSaving)
      ensures imageSrc == old(imageSrc) && selectedFilter == old(selectedFilter)
      ensures filterIntensity == old(filterIntensity) && activeEffects == old(activeEffects)
      ensures isLibraryReady == old(isLibraryReady)
    {
      if !WrapperMounted() || !isLibraryReady {
        effects := effects + [Alert(NotReadyMessage)];
        return;
      }
      isSaving := true;
      var scale := if env.isIOS then 1 else 2;
      var rest := CaptureAndBlobSteps(env);
      isSaving := false;
      var out := [SavingChanged(true), Capture(scale)] + rest;
      assert FinalSaving(effects + out, false) == false by {
        FinalSavingConcat(effects, out, false);
        EditSaveResetsSaving(true, env, FinalSaving(effects, false));
      }
      effects := effects + out;
    }
  }


  /**
   * The steps of `handleSaveImage` after the capture has been started: the `catch` of a
   * failed capture, or the `toBlob` callback with its share-or-download branch. Every
   * path emits `SavingChanged(false)`; the caller sets the field to match.
   */
  method CaptureAndBlobSteps(env: SaveEnv) returns (rest: seq<Effect>)
    ensures rest == AfterCapture(env)
  {
    if !env.captured {
      rest := [Alert(CaptureFailedMessage)];
      rest := rest + [SavingChanged(false)];
    } else if !env.blobCreated {
      rest := [SavingChanged(false)];
      rest := rest + [Alert(BlobFailedMessage)];
    } else {
      var delivery := [];
      if env.canShare.CanShareAnswers? && env.canShare.accepts {
        delivery := [ShareAttempt(EditedFileName)];
        if env.share != ShareAborted && env.share != Shared {
          delivery := delivery + [Download(ObjectUrl, EditedFileName)];
        }
      } else {
        delivery := [Download(ObjectUrl, EditedFileName)];
      }
      assert delivery == ShareOrDownload(env.canShare, env.share);
      rest := [ObjectUrlCreated] + delivery + [ObjectUrlRevoked];
      rest := rest + [SavingChanged(false)];
    }
  }
}

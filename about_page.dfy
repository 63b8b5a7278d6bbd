/**
 * The about page's state and its three handlers: picking an image, converting it to
 * black and white, and saving the result.
 */
module AboutPageState {
  import opened Common
  import opened Delivery
  import opened FileNames
  import opened Grayscale
  import opened AboutSave

  /** A picked file: its name and the data URL the file reader produced for it. */
  datatype PickedFile = PickedFile(name: string, dataUrl: string)

  class AboutPage {
    /** The picked image as a data URL, or `null`. */
    var originalImage: Option<string>
    /** The converted pixels that the JPEG data URL encodes, or `null` before a conversion. */
    var bwImage: Option<seq<byte>>
    var imageName: string
    /** Every effect the save handler has had on the outside world, oldest first. */
    var effects: seq<Effect>

    /** The initial state: nothing picked, nothing converted, an empty name. */
    constructor ()
      ensures originalImage == None && bwImage == None && imageName == "" && effects == []
    {
      originalImage := None;
      bwImage := None;
      imageName := "";
      effects := [];
    }

    /** JavaScript truthiness of `originalImage`: present and not the empty string. */
    predicate HasOriginal(): (present: bool)
      reads this
      ensures present ==> originalImage.Some?
      ensures originalImage == Some("") ==> !present
    {
      originalImage.Some? && originalImage.value != ""
    }

    /**
     * `handleImageUpload`: a picked file first clears the converted image, then (when
     * the reader has loaded it) becomes the original, named without its extension.
     * With no file nothing changes.
     */
    method HandleImageUpload(file: Option<PickedFile>)
      modifies this
      ensures file.None? ==> originalImage == old(originalImage) && bwImage == old(bwImage) && imageName == old(imageName)
      ensures file.Some? ==>
                && bwImage == None
                && originalImage == Some(file.value.dataUrl)
                && imageName == BaseName(file.value.name)
      ensures effects == old(effects)
    {
      if file.Some? {
        bwImage := None;
        originalImage := Some(file.value.dataUrl);
        imageName := BaseName(file.value.name);
      }
    }

    /**
     * `convertToBlackAndWhite`: with no original nothing happens; otherwise the decoded
     * pixels are converted in place and the converted image replaces any earlier one.
     */
    method ConvertToBlackAndWhite(pixels: array<byte>)
      requires pixels.Length % 4 == 0
      modifies this, pixels
      ensures !old(HasOriginal()) ==> pixels[..] == old(pixels[..]) && bwImage == old(bwImage)
      ensures old(HasOriginal()) ==>
                pixels[..] == Grayscaled(old(pixels[..])) && bwImage == Some(pixels[..])
      ensures originalImage == old(originalImage) && imageName == old(imageName) && effects == old(effects)
    {
      if !HasOriginal() {
        return;
      }
      ApplyLuminosity(pixels);
      bwImage := Some(pixels[..]);
    }

    /**
     * `handleSaveImage`: with no converted image nothing happens; otherwise the save
     * has the effects `AboutSaveEffects` gives for the answers in `env`.
     */
    method HandleSaveImage(env: AboutSaveEnv)
      modifies this
      ensures effects == old(effects) + (if old(bwImage).None? then [] else AboutSaveEffects(old(imageName), env))
      ensures originalImage == old(originalImage) && bwImage == old(bwImage) && imageName == old(imageName)
    {
      if bwImage.None? {
        return;
      }
      var fileName := imageName + "-bw.jpg";
      var out: seq<Effect>;
      if !env.fetchOk {
        out := [Download(DataUrl, fileName)];
      } else if env.shareExists {
        match env.canShare {
          case CanShareAbsent =>
            out := [Download(DataUrl, fileName)];
          case CanShareAnswers(accepts) =>
            if accepts {
              out := [ShareAttempt(fileName)];
              if env.share != Shared {
                out := out + [Download(DataUrl, fileName)];
              }
            } else {
              out := [ObjectUrlCreated, Download(ObjectUrl, fileName), ObjectUrlRevoked];
            }
        }
      } else {
        out := [ObjectUrlCreated, Download(ObjectUrl, fileName), ObjectUrlRevoked];
      }
      effects := effects + out;
    }
  }
}

# Photo editor: filter strings, effect toggles, save decisions and grayscale conversion

This project models the logic of two pages of a small Next.js photo editor:

- **The edit page** (`app/edit/page.js`).
  - A catalogue of six colour filters, each a partial map from channel to target value.
  - The CSS `filter` value of the live preview, which moves every channel from its baseline towards the filter's target by the intensity slider.
  - The CSS `filter` value of each catalogue thumbnail.
  - The map of overlay effects that `toggleEffect` updates, and the overlays drawn from it.
  - The decision rules of `handleSaveImage`: the guard, the capture scale, the share sheet with its download fallback, and the clean-up.
- **The about page** (`app/about/page.js`).
  - The base-name derivation of a picked file.
  - The in-place luminosity conversion of an RGBA buffer.
  - The file name and the share/download/fallback decision of its `handleSaveImage`.

A CSS filter value is a sequence of tokens.
- A `Fn(name, value, unit)` token is one filter function.
- A `Sep` token is one space the page appends.

Trimming and "no leading or trailing whitespace" are stated over these tokens. Channel values are exact reals.

A save handler's outside-world behaviour is a sequence of `Effect`s: alerts, `isSaving` changes, the capture, object-URL creation and revocation, share attempts and downloads. The browser's answers are an input record: is the device iOS, did the capture succeed, was there a blob, what does `canShare` say, and how did `share` end. A pure function gives each page's effects for those answers. Each page is a class whose `HandleSaveImage` method performs the same steps one at a time and is proved to append exactly those effects.

The grayscale loop is a method over an `array<byte>`. It is proved equal to a pixel-by-pixel specification function. Stores into the buffer go through ECMAScript's ToUint8Clamp abstract operation of ECMA-262, which clamps to 0..255 and rounds half to even.

## Model

| member | source | states |
|---|---|---|
| Filters.Lookup | app/edit/page.js:357-367 | a channel's property is present exactly when the filter defines it, and then it is the filter's value |
| Filters.Find | app/edit/page.js:349 | `filters.find`: no result only when no catalogue entry has the id; otherwise the first entry with that id |
| Filters.GetVal | app/edit/page.js:351-355 | an undefined channel gives the baseline; a defined one gives the baseline at intensity 0, exactly the target at 100, and baseline + 1.5·(target − baseline) at 150 (no clamping) |
| Filters.GetValBetween | app/edit/page.js:351-355 | for intensities 0..100 a defined channel lies between its baseline and its target |
| Filters.GetValWithinSlider | app/edit/page.js:351-355 | anywhere on the 0..150 slider a defined channel lies between its baseline and baseline + 1.5·(target − baseline) |
| Filters.Interpolated | app/edit/page.js:357-368 | one `getVal` call: a function with the channel's own CSS name and unit (% or deg), at the baseline when the filter leaves the channel out |
| Filters.CssFilterString | app/edit/page.js:348-370 | the value is `none` exactly when the id is `"none"` or not in the catalogue; otherwise it is eleven tokens: functions separated by single spaces, with no trailing space |
| Filters.PreviewTokens | app/edit/page.js:356-369 | n channels give 2n − 1 tokens, functions and single spaces alternating, ending in a function |
| Filters.PreviewFunctionsInOrder | app/edit/page.js:356-369 | the functions of the preview value are exactly the interpolated channels, in channel order |
| Filters.CssFunctions | app/edit/page.js:348-370 | for any real filter the preview lists six functions, the i-th being channel i of brightness, contrast, saturate, grayscale, sepia, hue-rotate with its name, interpolated value and unit |
| Filters.ChannelFunction | app/edit/page.js:356-369 | function i of a real filter's preview is channel i of the fixed order, interpolated |
| Filters.InterpolatedAtBaseline | app/edit/page.js:351-355 | an undefined channel, or any channel at intensity 0, is at its baseline (100, 100, 100, 0, 0, 0) |
| Filters.InterpolatedAtFull | app/edit/page.js:351-355 | at intensity 100 a defined channel is at its target, an undefined one at its baseline |
| Filters.InterpolatedAtOverdrive | app/edit/page.js:351-355 | at intensity 150 a defined channel is at baseline + 1.5·(target − baseline) |
| Filters.CssAtZeroIsNeutral | app/edit/page.js:348-370 | at intensity 0 any real filter's preview is brightness 100%, contrast 100%, saturate 100%, grayscale 0%, sepia 0%, hue-rotate 0deg |
| Filters.CssAtFullIsTarget | app/edit/page.js:348-370 | at intensity 100 function i is channel i at its target when defined and at its baseline otherwise, with its own name and unit |
| Filters.CssUndefinedIsBaseline | app/edit/page.js:351-355 | a channel the filter leaves out stays at its baseline at every intensity |
| Filters.CssOverdrive | app/edit/page.js:351-355 | at intensity 150 a defined channel overshoots its target by half the distance from the baseline |
| Filters.NoirAtFull | app/edit/page.js:348-370 | "noir" at 100 gives brightness 90%, contrast 150%, saturate 100%, grayscale 100%, sepia 0%, hue-rotate 0deg |
| Filters.RawPiece | app/edit/page.js:376-386 | one channel's thumbnail text alternates function and space |
| Filters.ThumbnailTokens | app/edit/page.js:374-386 | the conditional appends give at most two tokens per channel, and nothing at all exactly when the filter defines none of the channels |
| Filters.ThumbnailFilterString | app/edit/page.js:372-388 | the value is `none` exactly for the none filter; otherwise it is trimmed: single spaces between functions and none at either end |
| Filters.ThumbnailFunctions | app/edit/page.js:372-388 | the thumbnail lists, in channel order, the raw target of each defined channel and nothing else |
| Filters.ThumbnailTokensFunctions | app/edit/page.js:374-386 | the untrimmed thumbnail text holds one function per defined channel, at its raw target |
| Filters.RawPieceFunctions | app/edit/page.js:376-386 | one channel contributes its raw target when defined and nothing otherwise |
| Filters.ThumbnailIsFullPreviewOfDefinedChannels | app/edit/page.js:372-388 | a thumbnail shows the full-intensity preview restricted to the channels the filter defines, in the same order |
| Filters.KeepDefined | app/edit/page.js:376-386 | keeping the defined channels of the intensity-100 preview gives exactly the raw targets |
| Filters.TrimStart | app/edit/page.js:387 | `trim` at the front removes leading spaces only, and what remains starts with a function |
| Filters.TrimEnd | app/edit/page.js:387 | `trim` at the back removes trailing spaces only, and what remains ends with a function |
| Filters.Trim | app/edit/page.js:387 | `trim()` never lengthens the value, leaves no separator at either end, and keeps something whenever the value holds a function |
| Filters.TrimAlternating | app/edit/page.js:387 | trimming an alternating value leaves it well spaced |
| Filters.TrimKeepsFunctions | app/edit/page.js:387 | trimming never removes a filter function |
| Effects.Toggle | app/edit/page.js:390-392 | the toggled id's truthiness flips, the id is present afterwards, every other key keeps its value |
| Effects.Truthy | app/edit/page.js:390-392 | JavaScript truthiness of `activeEffects[id]`: an absent key reads as `undefined` and is off; a present key is on exactly when it holds `true` |
| Effects.ToggleTwice | app/edit/page.js:390-392 | toggling twice restores truthiness; it restores the map when the id was present, and leaves an explicit `false` when it was absent |
| Effects.ToggleCommutes | app/edit/page.js:390-392 | toggles of two ids commute |
| Effects.ActiveSetToggle | app/edit/page.js:390-392 | a toggle adds the id to the set of active effects or removes it, touching no other |
| Effects.ActiveSet | app/edit/page.js:485-489 | the set of effect ids that are switched on: an id is in it exactly when its entry is truthy |
| Effects.Overlays | app/edit/page.js:485-489 | each overlay is drawn exactly when its effect is truthy, at most once, in the fixed stacking order vignette, dust, grain |
| Effects.OverlaysFollowActiveSet | app/edit/page.js:485-489 | the drawn overlays depend only on which effects are on |
| Effects.ToggleOtherKeepsOverlays | app/edit/page.js:485-489 | toggling an id outside the effect catalogue draws the same overlays |
| EditSave.CanvasScale | app/edit/page.js:403-405 | the capture scale is 1 on iOS and 2 elsewhere |
| EditSave.EditSaveEffects | app/edit/page.js:394-465 | an unready save is exactly the one "not ready" alert; a ready one sets `isSaving`, captures at the platform's scale, and always resets `isSaving` to false later |
| EditSave.AfterCapture | app/edit/page.js:407-464 | after the capture `isSaving` is reset and never set again; there is an alert exactly when the capture threw or the blob is null, and an object URL exactly when there is a blob |
| EditSave.ShareOrDownload | app/edit/page.js:436-452 | one or two effects: the share sheet exactly when `canShare` is present and accepts, a download of the object URL exactly when it does not or the share fails with anything but `AbortError`, always under `edited-image.jpg` |
| EditSave.EditSaveGuard | app/edit/page.js:395-398 | the save stops at the guard exactly when the wrapper is missing or the library is not ready; it then only alerts and never sets `isSaving` |
| EditSave.EditSaveSetup | app/edit/page.js:400-412 | a ready save first sets `isSaving`, then captures at scale 1 on iOS and 2 elsewhere |
| EditSave.EditSaveShare | app/edit/page.js:436-442 | the share sheet is asked for exactly when there is a blob and `canShare` accepts the file |
| EditSave.EditSaveDownload | app/edit/page.js:436-452 | a download happens exactly when there is a blob and either `canShare` is missing or refuses, or the share fails with anything but `AbortError` |
| EditSave.EditSaveCancelIsSilent | app/edit/page.js:443-449 | a cancelled share gives no download and no alert |
| EditSave.EditSaveUrlLifecycle | app/edit/page.js:434-454 | the object URL is created exactly when there is a blob, and revoked exactly when created |
| EditSave.EditSaveFileName | app/edit/page.js:414-433 | every shared or downloaded file is named `edited-image.jpg` |
| EditSave.EditSaveResetsSaving | app/edit/page.js:400-464 | after a save that passed the guard `isSaving` is false on every path; after one that did not it is unchanged |
| EditSave.EditSaveFailures | app/edit/page.js:425-464 | a failed capture or a null blob alerts with its own message and shares or downloads nothing |
| Delivery.FinalSaving | app/edit/page.js:400-464 | the value of `isSaving` after a run of effects: unchanged by effects that do not set it, and the last value set when the run ends in a change |
| Delivery.FinalSavingConcat | app/edit/page.js:400-464 | the flag after two runs of effects is the flag after the second, started from where the first left it |
| EditPageState.EditPage.constructor | app/edit/page.js:301-311 | the initial state: no image, filter "none" at intensity 100, no effects, not saving, library not loaded |
| EditPageState.EditPage.PreviewFilter | app/edit/page.js:483 | the preview's filter is `none` exactly when no real filter is selected |
| EditPageState.EditPage.WrapperMounted | app/edit/page.js:476-477 | the wrapper the guard at line 395 tests exists only while `imageSrc` is set, and an empty data URL is falsy and mounts nothing |
| EditPageState.EditPage.LibraryLoaded | app/edit/page.js:316-324 | loading the capture library sets the ready flag and nothing else |
| EditPageState.EditPage.HandleImageUpload | app/edit/page.js:337-346 | a picked file's data URL becomes the image; with no file nothing changes |
| EditPageState.EditPage.SelectFilter | app/edit/page.js:556 | a thumbnail click selects that filter and changes nothing else |
| EditPageState.EditPage.SetIntensity | app/edit/page.js:577-582 | the slider sets the intensity within 0..150 and changes nothing else |
| EditPageState.EditPage.ToggleEffect | app/edit/page.js:390-392 | the effect map becomes `Toggle` of the old one; nothing else changes |
| EditPageState.EditPage.HandleSaveImage | app/edit/page.js:394-465 | the steps append exactly `EditSaveEffects` for the guard and the answers; `isSaving` ends false after a ready save and is untouched otherwise, and stays the flag value the effect log leaves (`Valid`) |
| EditPageState.CaptureAndBlobSteps | app/edit/page.js:407-464 | the steps after the capture starts (the `catch` of a failed capture, or the `toBlob` callback with its share-or-download branch) produce exactly `AfterCapture` |
| FileNames.Split | app/about/page.js:27 | `split(".")` gives at least one piece, no piece holds a dot, and a single piece exactly when there is no dot |
| FileNames.JoinSplit | app/about/page.js:27 | `join(".")` of `split(".")` gives back the name |
| FileNames.Join | app/about/page.js:27 | `join(".")`: no pieces give `""`, one piece gives itself, the result starts with the first piece, and two or more pieces put a dot in it |
| FileNames.JoinLast | app/about/page.js:27 | joining two or more pieces is joining all but the last, a dot, and the last |
| FileNames.BaseName | app/about/page.js:27 | a name without a dot gives `""`; otherwise the result is the name up to its last dot, so inner dots are kept |
| FileNames.BwFileName | app/about/page.js:78 | the saved name is the base name followed by `-bw.jpg` |
| FileNames.BaseNameKeepsInnerDots | app/about/page.js:27 | `a.b.png` gives `a.b` |
| FileNames.BaseNameOfDotFile | app/about/page.js:27 | `.png` gives `""` |
| Grayscale.ToUint8Clamp | app/about/page.js:59-61 | a store clamps to 0..255 and rounds to a nearest byte |
| Grayscale.ClampTiesToEven | app/about/page.js:59-61 | a value halfway between two bytes is stored as the even one |
| Grayscale.ClampKeepsWhole | app/about/page.js:59-61 | a whole byte value is stored unchanged |
| Grayscale.ClampBetween | app/about/page.js:59-61 | a value between two bytes is stored as a byte between them |
| Grayscale.LuminanceBetween | app/about/page.js:57-58 | since the weights sum to 1, the luminance lies between the pixel's darkest and brightest channel |
| Grayscale.LuminanceOfGray | app/about/page.js:57-58 | a gray pixel's luminance is its own value |
| Grayscale.Luminance | app/about/page.js:57-58 | the weighted sum of a pixel's red, green and blue bytes lies in 0..255 |
| Grayscale.Gray | app/about/page.js:57-61 | the byte stored for a pixel is within 0.5 of its luminance |
| Grayscale.ConvertedPixel | app/about/page.js:57-61 | a converted pixel is four bytes: three equal grays, then the old alpha |
| Grayscale.Grayscaled | app/about/page.js:55-62 | the conversion keeps the buffer length |
| Grayscale.GrayscaledPixel | app/about/page.js:55-62 | after the conversion every pixel holds its gray in red, green and blue, and its old alpha |
| Grayscale.GrayscaledKeepsAlpha | app/about/page.js:55-62 | no byte at an index ≡ 3 (mod 4) changes |
| Grayscale.GrayWithinPixel | app/about/page.js:57-61 | a pixel's gray lies between its darkest and brightest channel, hence in 0..255 |
| Grayscale.GrayscaledIdempotent | app/about/page.js:55-62 | converting a converted buffer changes nothing |
| Grayscale.ApplyLuminosity | app/about/page.js:55-62 | the in-place loop leaves exactly `Grayscaled` of the buffer it started from |
| AboutSave.AboutSaveFileName | app/about/page.js:78-112 | every shared or downloaded file is named after the image with `-bw.jpg` appended |
| AboutSave.AboutSaveEffects | app/about/page.js:75-113 | one to three effects on every path, the image always reaching the share sheet or a download, every file named `imageName-bw.jpg` |
| AboutSave.AboutSaveShare | app/about/page.js:87-92 | the share sheet is asked for exactly when the fetch worked, `share` exists and `canShare` accepts |
| AboutSave.AboutSaveDelivers | app/about/page.js:80-112 | a download happens on every path except a successful share |
| AboutSave.AboutSaveFallback | app/about/page.js:103-112 | a failed fetch, a missing `canShare` while `share` exists, or a failed or cancelled share falls back to a data-URL download with the same name |
| AboutSave.AboutSaveBlobUrl | app/about/page.js:93-102 | the blob-URL download is used exactly when the fetch worked and sharing is not offered; its URL is created before the click and revoked after |
| AboutSave.AboutSaveIsQuiet | app/about/page.js:75-113 | the about page's save never alerts and has no saving flag |
| AboutSave.CancelDiffersBetweenPages | app/about/page.js:103-112 | on a cancelled share the edit page downloads nothing while the about page downloads |
| AboutPageState.AboutPage.constructor | app/about/page.js:7-9 | the initial state: no original, no converted image, empty name |
| AboutPageState.AboutPage.HasOriginal | app/about/page.js:37 | the conversion's guard: an original is needed, and an empty data URL is falsy and stops it |
| AboutPageState.AboutPage.HandleImageUpload | app/about/page.js:17-31 | a picked file clears the converted image, becomes the original, and sets the name to its base name; with no file nothing changes |
| AboutPageState.AboutPage.ConvertToBlackAndWhite | app/about/page.js:36-69 | with no original nothing changes; otherwise the pixels become `Grayscaled` of themselves and are the converted image |
| AboutPageState.AboutPage.HandleSaveImage | app/about/page.js:75-113 | with no converted image nothing happens; otherwise the steps append exactly `AboutSaveEffects` |

## Left out

- The JSX rendering, the style block, the tabs, the text overlay and its colour, font and size controls. These are presentation only. Only the overlay order, the filter value the preview `img` receives and the filter value of each thumbnail (`ThumbnailFilterString`) are modelled.
- The save button is disabled while saving or loading. That is a JSX attribute, and the handler itself has no such guard, so the model's `HandleSaveImage` has none.
- Loading the html2canvas script and the capture itself. They are a third-party DOM rasteriser. Whether the capture succeeds is an input; its scale is modelled.
- `FileReader`, image decoding, `drawImage`/`getImageData`/`putImageData`, JPEG encoding by `toBlob`/`toDataURL`, `fetch` of a data URL, `URL.createObjectURL` and `navigator.share`. Each is an input or an effect token.
  - The about page's converted image is kept as the converted pixels that its data URL encodes.
  - The decoded pixels are a parameter of `ConvertToBlackAndWhite`.
- The asynchronous gap between a handler and its callbacks (the reader's `onload`, the image's `onload`, `toBlob`'s callback, awaited promises). Each handler runs to completion in one step. Interleavings with other handlers, such as a second upload arriving before the first reader finishes, are not modelled.
- Console logging. It has no observable effect in the model.
- JavaScript number-to-string formatting inside filter values. Values are exact reals inside tokens.
- The slider hands `filterIntensity` over as a string that `/` coerces. The model takes the number.
- IEEE-754 rounding of the luminance products. The luminance is exact; the store rounding (ToUint8Clamp) is modelled exactly.
- The user-agent test for iOS. It is an input.
- The code has no blur channel, no full-resolution redraw, no text rescaling, no new-tab or long-press fallback and no `{name}-edited` file name, so the model has none. The edit page always saves as `edited-image.jpg`.
- A failed file read on the about page. The source clears the converted image as soon as a file is picked (app/about/page.js:21), before the read; if the read then failed, the old original and name would stay. `HandleImageUpload` assumes the reader succeeds. The edit page's reader failure is left out likewise.
- The static pages, the header, the footer and the layout. They hold no logic.
